/** Names in the cache directory (pkg/vm/vm.go, pkg/vm/vm_linux.go): how a prefix given
    by the user is resolved to one installation, how short ids lead back to it, and the
    listing order os.ReadDir gives. */
module CacheNames {
  import opened Common

  const ID_LENGTH := 64
  const SHORT_LENGTH := 12

  datatype Entry = Entry(name: string, isDir: bool)

  predicate Matches(e: Entry, prefix: string) {
    e.isDir && |e.name| == ID_LENGTH && prefix <= e.name
  }

  /** The last directory in listing order that has a full-length name and starts with the prefix. */
  function LastMatch(entries: seq<Entry>, prefix: string): Option<string> {
    if entries == [] then None
    else if Matches(entries[|entries| - 1], prefix) then Some(entries[|entries| - 1].name)
    else LastMatch(entries[..|entries| - 1], prefix)
  }

  /** Position k holds a match and no later position does. */
  ghost predicate LastMatchAt(entries: seq<Entry>, prefix: string, k: int) {
    && 0 <= k < |entries|
    && Matches(entries[k], prefix)
    && forall j | k < j < |entries| :: !Matches(entries[j], prefix)
  }

  lemma {:induction false} LastMatchIsLast(entries: seq<Entry>, prefix: string)
    ensures LastMatch(entries, prefix).None? <==> forall e | e in entries :: !Matches(e, prefix)
    ensures forall n :: LastMatch(entries, prefix) == Some(n) <==>
      exists k :: LastMatchAt(entries, prefix, k) && entries[k].name == n
  {
    if entries == [] {
    } else {
      var last, rest := entries[|entries| - 1], entries[..|entries| - 1];
      assert entries == rest + [last];
      if Matches(last, prefix) {
      } else {
        LastMatchIsLast(rest, prefix);
        assert forall e :: e in entries <==> e in rest || e == last;
        forall n | LastMatch(entries, prefix) == Some(n)
          ensures exists k :: LastMatchAt(entries, prefix, k) && entries[k].name == n
        {
          var k :| LastMatchAt(rest, prefix, k) && rest[k].name == n;
          assert forall j | 0 <= j < |rest| :: entries[j] == rest[j];
          assert LastMatchAt(entries, prefix, k);
        }
        forall n, k | LastMatchAt(entries, prefix, k) && entries[k].name == n
          ensures LastMatch(entries, prefix) == Some(n)
        {
          assert forall j | 0 <= j < |rest| :: entries[j] == rest[j];
          assert LastMatchAt(rest, prefix, k);
        }
      }
    }
  }

  /** id is the name at the last position that holds a directory whose name has 64 characters
      and begins with the prefix. */
  ghost predicate IsLastDirFrom(entries: seq<Entry>, prefix: string, id: string) {
    exists k ::
      && 0 <= k < |entries| && entries[k] == Entry(id, true) && |id| == 64 && prefix <= id
      && forall j | k < j < |entries| :: !(entries[j].isDir && |entries[j].name| == 64 && prefix <= entries[j].name)
  }

  /** Every prefix, however short, of the name of a listed directory resolves, to the last such
      directory. */
  lemma EveryPrefixResolves(entries: seq<Entry>, at: nat, n: nat)
    requires at < |entries| && entries[at].isDir && |entries[at].name| == 64 && n <= 64
    ensures var found := LastMatch(entries, entries[at].name[..n]);
      found.Some? && IsLastDirFrom(entries, entries[at].name[..n], found.value)
  {
    var prefix := entries[at].name[..n];
    LastMatchIsLast(entries, prefix);
    assert entries[at] in entries;
    LastMatchIsLastDir(entries, prefix);
  }

  lemma LastMatchIsLastDir(entries: seq<Entry>, prefix: string)
    requires LastMatch(entries, prefix).Some?
    ensures IsLastDirFrom(entries, prefix, LastMatch(entries, prefix).value)
  {
    LastMatchIsLast(entries, prefix);
    var k :| LastMatchAt(entries, prefix, k) && entries[k].name == LastMatch(entries, prefix).value;
    assert entries[k] == Entry(entries[k].name, true);
  }

  /** GetVMCachePath's loop: every match overwrites the previous one. */
  method GetVMCachePath(entries: seq<Entry>, imageId: string) returns (fullImageId: Option<string>)
    ensures fullImageId == LastMatch(entries, imageId)
    ensures fullImageId.None? <==>
      forall e | e in entries :: !(e.isDir && |e.name| == 64 && imageId <= e.name)
    ensures fullImageId.Some? ==> IsLastDirFrom(entries, imageId, fullImageId.value)
  {
    fullImageId := None;
    for i := 0 to |entries|
      invariant fullImageId == LastMatch(entries[..i], imageId)
    {
      assert entries[..i + 1][..i] == entries[..i];
      if Matches(entries[i], imageId) {
        fullImageId := Some(entries[i].name);
      }
    }
    assert entries[..|entries|] == entries;
    LastMatchIsLast(entries, imageId);
    if fullImageId.Some? {
      LastMatchIsLastDir(entries, imageId);
    }
  }

  /** A full id resolves to itself exactly when its directory is listed. */
  lemma FullIdResolvesToItself(entries: seq<Entry>, id: string)
    requires |id| == ID_LENGTH
    ensures LastMatch(entries, id) == Some(id) <==> Entry(id, true) in entries
    ensures LastMatch(entries, id).None? <==> Entry(id, true) !in entries
  {
    LastMatchIsLast(entries, id);
    forall e | Matches(e, id) ensures e == Entry(id, true) {
      assert e.name == id;
    }
  }

  /** The 12-character id that WriteConfig stores and list shows. */
  function ShortId(id: string): (short: string)
    requires |id| >= SHORT_LENGTH
    ensures |short| == SHORT_LENGTH && short <= id
  {
    id[..SHORT_LENGTH]
  }

  /** The short id leads back to the directory it was taken from exactly when no
      directory listed later begins with the same 12 characters. */
  lemma ShortIdRoundTrip(entries: seq<Entry>, at: nat)
    requires at < |entries| && entries[at].isDir && |entries[at].name| == ID_LENGTH
    requires forall i, j | 0 <= i < j < |entries| :: entries[i].name != entries[j].name
    ensures LastMatch(entries, ShortId(entries[at].name)) == Some(entries[at].name) <==>
      forall j | at < j < |entries| && entries[j].isDir && |entries[j].name| == ID_LENGTH ::
        ShortId(entries[j].name) != ShortId(entries[at].name)
  {
    var id := entries[at].name;
    var short := ShortId(id);
    LastMatchIsLast(entries, short);
    assert Matches(entries[at], short);
    forall j | at < j < |entries| && entries[j].isDir && |entries[j].name| == ID_LENGTH
      ensures Matches(entries[j], short) <==> ShortId(entries[j].name) == short
    {
    }
  }

  /** The constants of the source: ids of 64 characters, short ids of 12. */
  lemma ShortIdHasTwelve(id: string)
    requires |id| == ID_LENGTH
    ensures |id| == 64 && |ShortId(id)| == 12 && VmName(id) == "podman-bootc-" + ShortId(id)
    ensures forall i | 0 <= i < 12 :: ShortId(id)[i] == id[i]
  {
  }

  /** The libvirt domain name keeps only the first 12 characters of the id. */
  function VmName(id: string): string
    requires |id| >= SHORT_LENGTH
  {
    "podman-bootc-" + id[..SHORT_LENGTH]
  }

  /** Two installations share a domain exactly when their short ids agree. */
  lemma DomainSharedIffShortIdsAgree(a: string, b: string)
    requires |a| >= SHORT_LENGTH && |b| >= SHORT_LENGTH
    ensures VmName(a) == VmName(b) <==> ShortId(a) == ShortId(b)
  {
    if VmName(a) == VmName(b) {
      assert VmName(a)[|"podman-bootc-"|..] == ShortId(a);
      assert VmName(b)[|"podman-bootc-"|..] == ShortId(b);
    }
  }

  // ---- listing order ----

  /** Byte-wise order of names, as os.ReadDir sorts. */
  predicate Before(a: string, b: string) {
    b != [] && (a == [] || a[0] < b[0] || (a[0] == b[0] && Before(a[1..], b[1..])))
  }

  lemma {:induction false} BeforeIsTotalOrder(a: string, b: string, c: string)
    ensures !Before(a, a)
    ensures a == b || Before(a, b) || Before(b, a)
    ensures Before(a, b) && Before(b, c) ==> Before(a, c)
  {
    if a != [] {
      if b != [] {
        if c != [] {
          BeforeIsTotalOrder(a[1..], b[1..], c[1..]);
        } else {
          BeforeIsTotalOrder(a[1..], b[1..], []);
        }
        if a[0] == b[0] && a[1..] == b[1..] {
          assert a == [a[0]] + a[1..] == b;
        }
      } else {
        BeforeIsTotalOrder(a[1..], [], []);
      }
    }
  }

  /** A name comes before another if the first character in which they differ is smaller, or if it
      is a proper prefix of the other. */
  lemma {:induction false} BeforeIsByFirstDifference(a: string, b: string)
    ensures Before(a, b) <==> a != b && (a <= b || exists k :: DiffersAt(a, b, k))
  {
    if a != [] && b != [] && a[0] == b[0] {
      BeforeIsByFirstDifference(a[1..], b[1..]);
      assert a == [a[0]] + a[1..] && b == [b[0]] + b[1..];
      if k :| DiffersAt(a[1..], b[1..], k) {
        assert a[..k + 1] == [a[0]] + a[1..][..k] && b[..k + 1] == [b[0]] + b[1..][..k];
        assert DiffersAt(a, b, k + 1);
      }
      if k :| DiffersAt(a, b, k) {
        assert a[1..][..k - 1] == a[..k][1..] && b[1..][..k - 1] == b[..k][1..];
        assert DiffersAt(a[1..], b[1..], k - 1);
      }
    } else if a != [] && b != [] {
      if a[0] < b[0] {
        assert DiffersAt(a, b, 0);
      }
      forall k | k > 0 ensures !DiffersAt(a, b, k) {
        assert 0 < k < |a| && k < |b| ==> a[..k][0] != b[..k][0];
      }
    }
  }

  ghost predicate DiffersAt(a: string, b: string, k: int) {
    0 <= k < |a| && k < |b| && a[..k] == b[..k] && a[k] < b[k]
  }

  ghost predicate Sorted(names: seq<string>) {
    forall i, j | 0 <= i < j < |names| :: Before(names[i], names[j])
  }

  /** The listing after a directory was created. */
  function Insert(names: seq<string>, x: string): seq<string> {
    if names == [] then [x]
    else if x == names[0] then names
    else if Before(x, names[0]) then [x] + names
    else [names[0]] + Insert(names[1..], x)
  }

  lemma {:induction false} InsertListing(names: seq<string>, x: string)
    requires Sorted(names)
    ensures Sorted(Insert(names, x))
    ensures forall n :: n in Insert(names, x) <==> n in names || n == x
  {
    if names == [] || x == names[0] {
    } else if Before(x, names[0]) {
      forall j | 0 <= j < |names| ensures Before(x, names[j]) {
        BeforeIsTotalOrder(x, names[0], names[j]);
      }
    } else {
      InsertListing(names[1..], x);
      var rest := Insert(names[1..], x);
      forall j | 0 <= j < |rest| ensures Before(names[0], rest[j]) {
        assert rest[j] in rest;
        if rest[j] == x {
          BeforeIsTotalOrder(names[0], x, x);
        } else {
          var k :| 0 <= k < |names[1..]| && names[1..][k] == rest[j];
          assert names[k + 1] == rest[j];
        }
      }
      assert names == [names[0]] + names[1..];
    }
  }

  /** The listing after a directory was removed. */
  function Remove(names: seq<string>, x: string): seq<string> {
    if names == [] then []
    else if names[0] == x then Remove(names[1..], x)
    else [names[0]] + Remove(names[1..], x)
  }

  lemma {:induction false} RemoveListing(names: seq<string>, x: string)
    requires Sorted(names)
    ensures Sorted(Remove(names, x))
    ensures forall n :: n in Remove(names, x) <==> n in names && n != x
  {
    if names != [] {
      RemoveListing(names[1..], x);
      var rest := Remove(names[1..], x);
      assert names == [names[0]] + names[1..];
      forall j | 0 <= j < |rest| ensures Before(names[0], rest[j]) {
        assert rest[j] in rest;
        var k :| 0 <= k < |names[1..]| && names[1..][k] == rest[j];
        assert names[k + 1] == rest[j];
      }
    }
  }
}
