/** cmd/images.go: the rows that `images` shows.  reference.Parse is a parameter. */
module Images {
  import opened Common

  const NONE := "<none>"

  /** What reference.Parse makes of a string: an error, a reference without a name, a name
      without a tag, or both. */
  datatype Reference = Malformed | Nameless | Named(name: string) | Tagged(name: string, tag: string)

  datatype Summary = Summary(id: string, repoTags: seq<string>, created: int, size: int)

  datatype RepoTag = RepoTag(repository: string, tag: string)

  datatype Row = Row(repository: string, tag: string, image: Summary)

  function OrNone(s: string): string {
    if s == "" then NONE else s
  }

  /** tokenRepoTag; None is the error return. */
  function TokenRepoTag(ref: string, parse: string -> Reference): Option<RepoTag> {
    if ref == "<none>:<none>" then Some(RepoTag(NONE, NONE))
    else match parse(ref)
      case Malformed => None
      case Nameless => Some(RepoTag(ref, NONE))
      case Named(name) => Some(RepoTag(OrNone(name), NONE))
      case Tagged(name, tag) => Some(RepoTag(OrNone(name), OrNone(tag)))
  }

  predicate Parses(tags: seq<string>, parse: string -> Reference) {
    forall i | 0 <= i < |tags| :: TokenRepoTag(tags[i], parse).Some?
  }

  /** The rows of the names of an image that have a tag, or that have none. */
  function RowsWhere(e: Summary, tags: seq<string>, tagged: bool, parse: string -> Reference): seq<Row>
    requires Parses(tags, parse)
  {
    if tags == [] then []
    else
      var rest, last := tags[..|tags| - 1], TokenRepoTag(tags[|tags| - 1], parse).value;
      RowsWhere(e, rest, tagged, parse)
        + if (last.tag != NONE) == tagged then [Row(last.repository, last.tag, e)] else []
  }

  lemma {:induction false} EveryNameGivesARow(e: Summary, tags: seq<string>, parse: string -> Reference)
    requires Parses(tags, parse)
    ensures |RowsWhere(e, tags, true, parse)| + |RowsWhere(e, tags, false, parse)| == |tags|
    ensures forall tagged, i | 0 <= i < |RowsWhere(e, tags, tagged, parse)| ::
      var row := RowsWhere(e, tags, tagged, parse)[i]; (row.tag != NONE) == tagged && row.image == e
  {
    if tags != [] {
      EveryNameGivesARow(e, tags[..|tags| - 1], parse);
    }
  }

  /** The rows of one image: all its tagged names, or one untagged one, or one without a name. */
  function RowsOf(e: Summary, parse: string -> Reference): seq<Row>
    requires Parses(e.repoTags, parse)
  {
    if e.repoTags == [] then [Row(NONE, NONE, e)]
    else
      var tagged := RowsWhere(e, e.repoTags, true, parse);
      if tagged != [] then tagged
      else
        EveryNameGivesARow(e, e.repoTags, parse);
        [RowsWhere(e, e.repoTags, false, parse)[0]]
  }

  function TaggedNames(tags: seq<string>, parse: string -> Reference): nat
    requires Parses(tags, parse)
  {
    if tags == [] then 0
    else
      TaggedNames(tags[..|tags| - 1], parse)
        + if TokenRepoTag(tags[|tags| - 1], parse).value.tag != NONE then 1 else 0
  }

  lemma {:induction false} TaggedRowsAreCounted(e: Summary, tags: seq<string>, parse: string -> Reference)
    requires Parses(tags, parse)
    ensures |RowsWhere(e, tags, true, parse)| == TaggedNames(tags, parse)
  {
    if tags != [] {
      TaggedRowsAreCounted(e, tags[..|tags| - 1], parse);
    }
  }

  /** Each image gives max(1, number of its tagged names) rows, all of them its own; one shows
      <none> as its tag exactly if the image has no tagged name. */
  lemma RowsPerImage(e: Summary, parse: string -> Reference)
    requires Parses(e.repoTags, parse)
    ensures var n := TaggedNames(e.repoTags, parse); |RowsOf(e, parse)| == if n == 0 then 1 else n
    ensures forall i | 0 <= i < |RowsOf(e, parse)| :: RowsOf(e, parse)[i].image == e
    ensures forall i | 0 <= i < |RowsOf(e, parse)| ::
      RowsOf(e, parse)[i].tag == NONE <==> TaggedNames(e.repoTags, parse) == 0
  {
    EveryNameGivesARow(e, e.repoTags, parse);
    TaggedRowsAreCounted(e, e.repoTags, parse);
  }

  predicate AllParse(images: seq<Summary>, parse: string -> Reference) {
    forall i | 0 <= i < |images| :: Parses(images[i].repoTags, parse)
  }

  function AllRows(images: seq<Summary>, parse: string -> Reference): seq<Row>
    requires AllParse(images, parse)
  {
    if images == [] then []
    else AllRows(images[..|images| - 1], parse) + RowsOf(images[|images| - 1], parse)
  }

  /** The order of created().After. */
  predicate NewerFirst(rows: seq<Row>) {
    forall i, j | 0 <= i < j < |rows| :: rows[i].image.created >= rows[j].image.created
  }

  lemma InsertedInOrder(sorted: seq<Row>, at: nat, row: Row)
    requires NewerFirst(sorted) && at <= |sorted|
    requires forall k | 0 <= k < at :: sorted[k].image.created >= row.image.created
    requires at < |sorted| ==> row.image.created > sorted[at].image.created
    ensures NewerFirst(sorted[..at] + [row] + sorted[at..])
    ensures multiset(sorted[..at] + [row] + sorted[at..]) == multiset(sorted) + multiset{row}
  {
    assert sorted == sorted[..at] + sorted[at..];
    var longer := sorted[..at] + [row] + sorted[at..];
    forall i, j | 0 <= i < j < |longer| ensures longer[i].image.created >= longer[j].image.created {
      if at < |sorted| && j > at {
        assert sorted[at].image.created >= sorted[j - 1].image.created;
      }
    }
  }

  /** Where a row belongs among rows in descending order. */
  method PlaceOf(sorted: seq<Row>, row: Row) returns (at: nat)
    ensures at <= |sorted|
    ensures forall k | 0 <= k < at :: sorted[k].image.created >= row.image.created
    ensures at < |sorted| ==> row.image.created > sorted[at].image.created
  {
    at := 0;
    while at < |sorted| && sorted[at].image.created >= row.image.created
      invariant at <= |sorted|
      invariant forall k | 0 <= k < at :: sorted[k].image.created >= row.image.created
    {
      at := at + 1;
    }
  }

  /** sort.Slice by creation time: some permutation in descending order. */
  method SortByCreated(rows: seq<Row>) returns (sorted: seq<Row>)
    ensures multiset(sorted) == multiset(rows) && NewerFirst(sorted)
  {
    if rows == [] {
      return [];
    }
    var row := rows[0];
    sorted := SortByCreated(rows[1..]);
    assert rows == [row] + rows[1..];
    var at := PlaceOf(sorted, row);
    InsertedInOrder(sorted, at, row);
    sorted := sorted[..at] + [row] + sorted[at..];
  }

  lemma OneMoreName(e: Summary, tags: seq<string>, i: nat, parse: string -> Reference)
    requires i < |tags| && Parses(tags[..i], parse)
    ensures Parses(tags[..i + 1], parse) <==> TokenRepoTag(tags[i], parse).Some?
    ensures TokenRepoTag(tags[i], parse).Some? ==>
      var last := TokenRepoTag(tags[i], parse).value;
      forall tagged :: RowsWhere(e, tags[..i + 1], tagged, parse)
        == RowsWhere(e, tags[..i], tagged, parse)
          + if (last.tag != NONE) == tagged then [Row(last.repository, last.tag, e)] else []
  {
    assert tags[..i + 1][..i] == tags[..i] && tags[..i + 1][i] == tags[i];
    assert forall j | 0 <= j < i :: tags[..i + 1][j] == tags[..i][j];
  }

  /** The loop over the names of one image. */
  method SplitTags(e: Summary, parse: string -> Reference) returns (tagged: seq<Row>, untagged: seq<Row>, ok: bool)
    ensures ok <==> Parses(e.repoTags, parse)
    ensures ok ==> tagged == RowsWhere(e, e.repoTags, true, parse) && untagged == RowsWhere(e, e.repoTags, false, parse)
  {
    tagged, untagged := [], [];
    for i := 0 to |e.repoTags|
      invariant Parses(e.repoTags[..i], parse)
      invariant tagged == RowsWhere(e, e.repoTags[..i], true, parse)
      invariant untagged == RowsWhere(e, e.repoTags[..i], false, parse)
    {
      var h := TokenRepoTag(e.repoTags[i], parse);
      OneMoreName(e, e.repoTags, i, parse);
      if h.None? {
        return tagged, untagged, false;
      }
      if h.value.tag == NONE {
        untagged := untagged + [Row(h.value.repository, h.value.tag, e)];
      } else {
        tagged := tagged + [Row(h.value.repository, h.value.tag, e)];
      }
    }
    assert e.repoTags[..|e.repoTags|] == e.repoTags;
    ok := true;
  }

  /** The rows of one image. */
  method RowsOfImage(e: Summary, parse: string -> Reference) returns (rows: seq<Row>, ok: bool)
    ensures ok <==> Parses(e.repoTags, parse)
    ensures ok ==> rows == RowsOf(e, parse)
  {
    if |e.repoTags| == 0 {
      return [Row(NONE, NONE, e)], true;
    }
    var tagged, untagged;
    tagged, untagged, ok := SplitTags(e, parse);
    if !ok || |tagged| > 0 {
      return tagged, ok;
    }
    EveryNameGivesARow(e, e.repoTags, parse);
    return [untagged[0]], true;
  }

  lemma OneMoreImage(images: seq<Summary>, i: nat, parse: string -> Reference)
    requires i < |images| && AllParse(images[..i], parse)
    ensures AllParse(images[..i + 1], parse) <==> Parses(images[i].repoTags, parse)
    ensures Parses(images[i].repoTags, parse) ==>
      AllRows(images[..i + 1], parse) == AllRows(images[..i], parse) + RowsOf(images[i], parse)
  {
    assert images[..i + 1][..i] == images[..i] && images[..i + 1][i] == images[i];
    assert forall j | 0 <= j < i :: images[..i + 1][j] == images[..i][j];
  }

  // ---- what is shown, in terms of the names alone ----

  /** The name has a tag to show. */
  ghost predicate HasTag(r: string, parse: string -> Reference) {
    r != "<none>:<none>" && parse(r).Tagged? && parse(r).tag != "" && parse(r).tag != "<none>"
  }

  /** The repository shown for a name. */
  ghost function Shown(r: string, parse: string -> Reference): string {
    if r == "<none>:<none>" then "<none>"
    else match parse(r)
      case Malformed => ""
      case Nameless => r
      case Named(n) => if n == "" then "<none>" else n
      case Tagged(n, _) => if n == "" then "<none>" else n
  }

  /** How many of the names show this repository with this tag. */
  ghost function TimesNamed(tags: seq<string>, repository: string, tag: string, parse: string -> Reference): nat {
    if tags == [] then 0
    else
      var r := tags[|tags| - 1];
      TimesNamed(tags[..|tags| - 1], repository, tag, parse)
        + if HasTag(r, parse) && Shown(r, parse) == repository && parse(r).tag == tag then 1 else 0
  }

  /** How often an image gives this row: once for each name with a tag that shows it; an image
      without such names gives one row, with the repository of its first name. */
  ghost function TimesOfImage(e: Summary, repository: string, tag: string, parse: string -> Reference): nat {
    if exists r :: r in e.repoTags && HasTag(r, parse) then TimesNamed(e.repoTags, repository, tag, parse)
    else if tag == "<none>" && repository == (if e.repoTags == [] then "<none>" else Shown(e.repoTags[0], parse)) then 1
    else 0
  }

  ghost function Times(images: seq<Summary>, row: Row, parse: string -> Reference): nat {
    if images == [] then 0
    else
      var e := images[|images| - 1];
      Times(images[..|images| - 1], row, parse)
        + if e == row.image then TimesOfImage(e, row.repository, row.tag, parse) else 0
  }

  lemma TokenInTerms(r: string, parse: string -> Reference)
    requires TokenRepoTag(r, parse).Some?
    ensures TokenRepoTag(r, parse).value.repository == Shown(r, parse)
    ensures TokenRepoTag(r, parse).value.tag != NONE <==> HasTag(r, parse)
    ensures HasTag(r, parse) ==> TokenRepoTag(r, parse).value.tag == parse(r).tag
  {
  }

  lemma {:induction false} TaggedRowsAreNamed(e: Summary, tags: seq<string>, row: Row, parse: string -> Reference)
    requires Parses(tags, parse)
    ensures multiset(RowsWhere(e, tags, true, parse))[row]
      == if e == row.image then TimesNamed(tags, row.repository, row.tag, parse) else 0
  {
    if tags != [] {
      TaggedRowsAreNamed(e, tags[..|tags| - 1], row, parse);
      TokenInTerms(tags[|tags| - 1], parse);
    }
  }

  lemma {:induction false} SomeTaggedRow(e: Summary, tags: seq<string>, parse: string -> Reference)
    requires Parses(tags, parse)
    ensures RowsWhere(e, tags, true, parse) != [] <==> exists r :: r in tags && HasTag(r, parse)
  {
    if tags != [] {
      var rest, r := tags[..|tags| - 1], tags[|tags| - 1];
      SomeTaggedRow(e, rest, parse);
      TokenInTerms(r, parse);
      assert forall x :: x in tags <==> x in rest || x == r;
    }
  }

  lemma {:induction false} FirstUntagged(e: Summary, tags: seq<string>, parse: string -> Reference)
    requires Parses(tags, parse) && tags != [] && forall r | r in tags :: !HasTag(r, parse)
    ensures RowsWhere(e, tags, false, parse) != []
    ensures RowsWhere(e, tags, false, parse)[0] == Row(Shown(tags[0], parse), NONE, e)
  {
    var rest, r := tags[..|tags| - 1], tags[|tags| - 1];
    TokenInTerms(r, parse);
    assert r in tags;
    if rest != [] {
      assert forall x | x in rest :: x in tags;
      FirstUntagged(e, rest, parse);
    } else {
      assert RowsWhere(e, rest, false, parse) == [];
    }
  }

  lemma RowsOfInTerms(e: Summary, row: Row, parse: string -> Reference)
    requires Parses(e.repoTags, parse)
    ensures multiset(RowsOf(e, parse))[row]
      == if e == row.image then TimesOfImage(e, row.repository, row.tag, parse) else 0
  {
    TaggedRowsAreNamed(e, e.repoTags, row, parse);
    SomeTaggedRow(e, e.repoTags, parse);
    if e.repoTags != [] && RowsWhere(e, e.repoTags, true, parse) == [] {
      FirstUntagged(e, e.repoTags, parse);
    }
  }

  lemma {:induction false} AllRowsInTerms(images: seq<Summary>, row: Row, parse: string -> Reference)
    requires AllParse(images, parse)
    ensures multiset(AllRows(images, parse))[row] == Times(images, row, parse)
  {
    if images != [] {
      AllRowsInTerms(images[..|images| - 1], row, parse);
      RowsOfInTerms(images[|images| - 1], row, parse);
    }
  }

  lemma {:induction false} NamedIsCounted(tags: seq<string>, j: nat, parse: string -> Reference)
    requires j < |tags| && HasTag(tags[j], parse)
    ensures TimesNamed(tags, Shown(tags[j], parse), parse(tags[j]).tag, parse) > 0
  {
    if j < |tags| - 1 {
      NamedIsCounted(tags[..|tags| - 1], j, parse);
    }
  }

  /** Every name with a tag is shown with its own repository and tag. */
  lemma {:induction false} TaggedNameIsShown(images: seq<Summary>, i: nat, j: nat, parse: string -> Reference)
    requires i < |images| && j < |images[i].repoTags| && HasTag(images[i].repoTags[j], parse)
    ensures var r := images[i].repoTags[j]; Times(images, Row(Shown(r, parse), parse(r).tag, images[i]), parse) > 0
  {
    if i < |images| - 1 {
      TaggedNameIsShown(images[..|images| - 1], i, j, parse);
    } else {
      NamedIsCounted(images[i].repoTags, j, parse);
      assert images[i].repoTags[j] in images[i].repoTags;
    }
  }

  lemma ParsesInTerms(images: seq<Summary>, parse: string -> Reference)
    ensures AllParse(images, parse) <==> forall i, j | 0 <= i < |images| && 0 <= j < |images[i].repoTags| ::
      images[i].repoTags[j] == "<none>:<none>" || !parse(images[i].repoTags[j]).Malformed?
  {
  }

  lemma ShownAsAsked(imgs: seq<Row>, images: seq<Summary>, parse: string -> Reference)
    requires AllParse(images, parse) && multiset(imgs) == multiset(AllRows(images, parse))
    ensures forall row :: multiset(imgs)[row] == Times(images, row, parse)
  {
    forall row ensures multiset(imgs)[row] == Times(images, row, parse) {
      AllRowsInTerms(images, row, parse);
    }
  }

  lemma NamesAreShown(imgs: seq<Row>, images: seq<Summary>, parse: string -> Reference)
    requires forall row :: multiset(imgs)[row] == Times(images, row, parse)
    ensures forall i, j, n, t | 0 <= i < |images| && 0 <= j < |images[i].repoTags|
        && parse(images[i].repoTags[j]) == Tagged(n, t) && n != "" && t != "" && t != "<none>"
        && images[i].repoTags[j] != "<none>:<none>" ::
      Row(n, t, images[i]) in imgs
  {
    forall i, j, n, t | 0 <= i < |images| && 0 <= j < |images[i].repoTags|
      && parse(images[i].repoTags[j]) == Tagged(n, t) && n != "" && t != "" && t != "<none>"
      && images[i].repoTags[j] != "<none>:<none>"
      ensures Row(n, t, images[i]) in imgs
    {
      TaggedNameIsShown(images, i, j, parse);
      assert multiset(imgs)[Row(n, t, images[i])] > 0;
    }
  }

  /** sortImages fails exactly if some name does not parse; otherwise it shows, newest first,
      every row exactly as often as the names of the images ask for it. */
  method SortImages(images: seq<Summary>, parse: string -> Reference) returns (imgs: seq<Row>, ok: bool)
    ensures ok <==> forall i, j | 0 <= i < |images| && 0 <= j < |images[i].repoTags| ::
      images[i].repoTags[j] == "<none>:<none>" || !parse(images[i].repoTags[j]).Malformed?
    ensures ok ==> NewerFirst(imgs) && forall row :: multiset(imgs)[row] == Times(images, row, parse)
    ensures ok ==> forall i, j, n, t | 0 <= i < |images| && 0 <= j < |images[i].repoTags|
        && parse(images[i].repoTags[j]) == Tagged(n, t) && n != "" && t != "" && t != "<none>"
        && images[i].repoTags[j] != "<none>:<none>" ::
      Row(n, t, images[i]) in imgs
  {
    imgs, ok := SortedRows(images, parse);
    ParsesInTerms(images, parse);
    if ok {
      ShownAsAsked(imgs, images, parse);
      NamesAreShown(imgs, images, parse);
    }
  }

  /** The loops of sortImages and its sort. */
  method SortedRows(images: seq<Summary>, parse: string -> Reference) returns (imgs: seq<Row>, ok: bool)
    ensures ok <==> AllParse(images, parse)
    ensures ok ==> multiset(imgs) == multiset(AllRows(images, parse)) && NewerFirst(imgs)
  {
    imgs := [];
    for i := 0 to |images|
      invariant AllParse(images[..i], parse) && imgs == AllRows(images[..i], parse)
    {
      OneMoreImage(images, i, parse);
      var rows, parsed := RowsOfImage(images[i], parse);
      if !parsed {
        return [], false;
      }
      imgs := imgs + rows;
    }
    assert images[..|images|] == images;
    imgs := SortByCreated(imgs);
    ok := true;
  }
}
