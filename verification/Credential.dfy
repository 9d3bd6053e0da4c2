/** pkg/vm/oemstring.go and pkg/vm/vm.go: the systemd credential that injects the public key.
    Strings are byte strings: every character stands for one byte. */
module Credential {
  import opened Common

  /** The two character classes the proofs follow through the string operations. */
  datatype Class = OneByte | NotSpace

  predicate InClass(c: char, k: Class) {
    match k
    case OneByte => c < 256 as char
    case NotSpace => !IsSpace(c)
  }

  ghost predicate AllIn(s: string, k: Class) {
    forall i | 0 <= i < |s| :: InClass(s[i], k)
  }

  ghost predicate IsBytes(s: string) {
    AllIn(s, OneByte)
  }

  // ---- base64 with padding, section 4 of RFC 4648 ----

  function Digit(i: int): char
    requires 0 <= i < 64
  {
    if i < 26 then ('A' as int + i) as char
    else if i < 52 then ('a' as int + (i - 26)) as char
    else if i < 62 then ('0' as int + (i - 52)) as char
    else if i == 62 then '+'
    else '/'
  }

  function Value(c: char): Option<int>
    ensures Value(c).Some? ==> 0 <= Value(c).value < 64
  {
    if 'A' <= c <= 'Z' then Some(c as int - 'A' as int)
    else if 'a' <= c <= 'z' then Some(c as int - 'a' as int + 26)
    else if '0' <= c <= '9' then Some(c as int - '0' as int + 52)
    else if c == '+' then Some(62)
    else if c == '/' then Some(63)
    else None
  }

  predicate InAlphabet(c: char) {
    Value(c).Some? || c == '='
  }

  /** The four sextets of three bytes. */
  datatype Group = Group(a: int, b: int, c: int, d: int)

  ghost predicate InRange(g: Group) {
    0 <= g.a < 64 && 0 <= g.b < 64 && 0 <= g.c < 64 && 0 <= g.d < 64
  }

  function ToGroup(x: int, y: int, z: int): (g: Group)
    requires 0 <= x < 256 && 0 <= y < 256 && 0 <= z < 256
    ensures InRange(g)
  {
    Group(x / 4, x % 4 * 16 + y / 16, y % 16 * 4 + z / 64, z % 64)
  }

  /** The three bytes of four sextets. */
  function Byte0(g: Group): (b: int)
    requires InRange(g)
    ensures 0 <= b < 256
  {
    g.a * 4 + g.b / 16
  }

  function Byte1(g: Group): (b: int)
    requires InRange(g)
    ensures 0 <= b < 256
  {
    g.b % 16 * 16 + g.c / 4
  }

  function Byte2(g: Group): (b: int)
    requires InRange(g)
    ensures 0 <= b < 256
  {
    g.c % 4 * 64 + g.d
  }

  function FromGroup(g: Group): (s: string)
    requires InRange(g)
    ensures |s| == 3
  {
    [Byte0(g) as char, Byte1(g) as char, Byte2(g) as char]
  }

  lemma Byte0RoundTrip(x: int, y: int, z: int)
    requires 0 <= x < 256 && 0 <= y < 256 && 0 <= z < 256
    ensures Byte0(ToGroup(x, y, z)) == x
  {
    assert (x % 4 * 16 + y / 16) / 16 == x % 4;
  }

  lemma Byte1RoundTrip(x: int, y: int, z: int)
    requires 0 <= x < 256 && 0 <= y < 256 && 0 <= z < 256
    ensures Byte1(ToGroup(x, y, z)) == y
  {
    assert (x % 4 * 16 + y / 16) % 16 == y / 16;
    assert (y % 16 * 4 + z / 64) / 4 == y % 16;
  }

  lemma Byte2RoundTrip(x: int, y: int, z: int)
    requires 0 <= x < 256 && 0 <= y < 256 && 0 <= z < 256
    ensures Byte2(ToGroup(x, y, z)) == z
  {
    assert (y % 16 * 4 + z / 64) % 4 == z / 64;
  }

  lemma GroupRoundTrip(x: int, y: int, z: int)
    requires 0 <= x < 256 && 0 <= y < 256 && 0 <= z < 256
    ensures FromGroup(ToGroup(x, y, z)) == [x as char, y as char, z as char]
  {
    Byte0RoundTrip(x, y, z);
    Byte1RoundTrip(x, y, z);
    Byte2RoundTrip(x, y, z);
  }

  /** The byte a character stands for. */
  function Byte(c: char): (b: int)
    ensures 0 <= b < 256
    ensures c < 256 as char ==> b as char == c
  {
    c as int % 256
  }

  function Digits(g: Group): string
    requires InRange(g)
  {
    [Digit(g.a), Digit(g.b), Digit(g.c), Digit(g.d)]
  }

  function Encode(s: string): string {
    if s == [] then []
    else if |s| == 1 then Digits(ToGroup(Byte(s[0]), 0, 0))[..2] + "=="
    else if |s| == 2 then Digits(ToGroup(Byte(s[0]), Byte(s[1]), 0))[..3] + "="
    else Digits(ToGroup(Byte(s[0]), Byte(s[1]), Byte(s[2]))) + Encode(s[3..])
  }

  function Decode(t: string): Option<string> {
    if t == [] then Some([])
    else if |t| < 4 || Value(t[0]).None? || Value(t[1]).None? then None
    else if t[2] == '=' then
      if |t| == 4 && t[3] == '=' then Some(FromGroup(Group(Value(t[0]).value, Value(t[1]).value, 0, 0))[..1]) else None
    else if Value(t[2]).None? then None
    else if t[3] == '=' then
      if |t| == 4 then Some(FromGroup(Group(Value(t[0]).value, Value(t[1]).value, Value(t[2]).value, 0))[..2]) else None
    else if Value(t[3]).None? then None
    else
      var rest := Decode(t[4..]);
      if rest.None? then None
      else
        Some(FromGroup(Group(Value(t[0]).value, Value(t[1]).value, Value(t[2]).value, Value(t[3]).value)) + rest.value)
  }

  lemma DigitRoundTrip(i: int)
    requires 0 <= i < 64
    ensures Value(Digit(i)) == Some(i) && Digit(i) != '='
  {
  }

  lemma DigitsRoundTrip(g: Group)
    requires InRange(g)
    ensures var t := Digits(g);
      && Value(t[0]) == Some(g.a) && Value(t[1]) == Some(g.b) && Value(t[2]) == Some(g.c) && Value(t[3]) == Some(g.d)
      && t[2] != '=' && t[3] != '='
  {
    DigitRoundTrip(g.a);
    DigitRoundTrip(g.b);
    DigitRoundTrip(g.c);
    DigitRoundTrip(g.d);
  }

  lemma DecodeGroup(g: Group, rest: string)
    requires InRange(g) && Decode(rest).Some?
    ensures Decode(Digits(g) + rest) == Some(FromGroup(g) + Decode(rest).value)
    ensures g.d == 0 ==> Decode(Digits(g)[..3] + "=") == Some(FromGroup(g)[..2])
    ensures g.c == g.d == 0 ==> Decode(Digits(g)[..2] + "==") == Some(FromGroup(g)[..1])
  {
    DigitsRoundTrip(g);
    assert (Digits(g) + rest)[4..] == rest;
  }

  lemma DecodeEncode1(s: string)
    requires IsBytes(s) && |s| == 1
    ensures Decode(Encode(s)) == Some(s)
  {
    var g := ToGroup(Byte(s[0]), 0, 0);
    GroupRoundTrip(Byte(s[0]), 0, 0);
    DecodeGroup(g, []);
    assert FromGroup(g)[..1] == s;
  }

  lemma DecodeEncode2(s: string)
    requires IsBytes(s) && |s| == 2
    ensures Decode(Encode(s)) == Some(s)
  {
    var g := ToGroup(Byte(s[0]), Byte(s[1]), 0);
    GroupRoundTrip(Byte(s[0]), Byte(s[1]), 0);
    DecodeGroup(g, []);
    assert FromGroup(g)[..2] == s;
  }

  lemma {:induction false} DecodeEncode(s: string)
    requires IsBytes(s)
    ensures Decode(Encode(s)) == Some(s)
  {
    if s == [] {
    } else if |s| == 1 {
      DecodeEncode1(s);
    } else if |s| == 2 {
      DecodeEncode2(s);
    } else {
      DecodeEncode(s[3..]);
      GroupRoundTrip(Byte(s[0]), Byte(s[1]), Byte(s[2]));
      DecodeGroup(ToGroup(Byte(s[0]), Byte(s[1]), Byte(s[2])), Encode(s[3..]));
      assert s == [s[0], s[1], s[2]] + s[3..];
    }
  }

  ghost predicate InAlphabetAll(t: string) {
    forall i | 0 <= i < |t| :: InAlphabet(t[i])
  }

  lemma DigitsInAlphabet(g: Group)
    requires InRange(g)
    ensures InAlphabetAll(Digits(g))
  {
    DigitsRoundTrip(g);
  }

  lemma {:induction false} EncodeStaysInAlphabet(s: string)
    ensures InAlphabetAll(Encode(s)) && (Encode(s) == [] <==> s == [])
  {
    if s != [] {
      DigitsInAlphabet(ToGroup(Byte(s[0]), if |s| > 1 then Byte(s[1]) else 0, if |s| > 2 then Byte(s[2]) else 0));
      if |s| > 2 {
        EncodeStaysInAlphabet(s[3..]);
      }
    }
  }

  lemma DecodeOfSomething(t: string)
    requires Decode(t) == Some([])
    ensures t == []
  {
  }

  // ---- lines, fields and paths ----

  /** The test vectors of section 10 of RFC 4648. */
  lemma TestVectors()
    ensures Encode("") == "" && Encode("f") == "Zg==" && Encode("fo") == "Zm8=" && Encode("foo") == "Zm9v"
    ensures Encode("foob") == "Zm9vYg==" && Encode("fooba") == "Zm9vYmE=" && Encode("foobar") == "Zm9vYmFy"
  {
    ShortVectors();
    LongVectors();
  }

  lemma ShortVectors()
    ensures Encode("") == "" && Encode("f") == "Zg==" && Encode("fo") == "Zm8=" && Encode("foo") == "Zm9v"
    ensures Encode("b") == "Yg==" && Encode("ba") == "YmE=" && Encode("bar") == "YmFy"
  {
  }

  lemma LongVectors()
    ensures Encode("foob") == "Zm9vYg==" && Encode("fooba") == "Zm9vYmE=" && Encode("foobar") == "Zm9vYmFy"
  {
    ShortVectors();
    assert "foob"[3..] == "b" && "fooba"[3..] == "ba" && "foobar"[3..] == "bar";
  }

  /** The two digits that they do not have. */
  lemma LastDigits()
    ensures Encode([251 as char, 239 as char, 190 as char]) == "++++"
    ensures Encode([255 as char, 255 as char, 255 as char]) == "////"
  {
  }

  predicate IsSpace(c: char) {
    c == ' ' || c == '\t' || c == '\n' || c == '\r'
  }

  ghost predicate NoSpace(s: string) {
    AllIn(s, NotSpace)
  }

  /** A word that a field splitter can give back. */
  ghost predicate IsWord(s: string) {
    s != [] && NoSpace(s)
  }

  /** The length of the part before the first separator. */
  function Before(s: string, sep: char): nat
    ensures Before(s, sep) <= |s|
    ensures Before(s, sep) < |s| ==> s[Before(s, sep)] == sep
    ensures forall i | 0 <= i < Before(s, sep) :: s[i] != sep
  {
    if s == [] || s[0] == sep then 0 else 1 + Before(s[1..], sep)
  }

  function Split(s: string, sep: char): seq<string>
    decreases |s|
  {
    var n := Before(s, sep);
    if n == |s| then [s] else [s[..n]] + Split(s[n + 1..], sep)
  }

  lemma BeforeFirst(a: string, sep: char, b: string)
    requires sep !in a
    ensures Before(a + [sep] + b, sep) == |a|
  {
    var s, n := a + [sep] + b, Before(a + [sep] + b, sep);
    assert s[|a|] == sep;
  }

  lemma SplitOnce(a: string, sep: char, b: string)
    requires sep !in a && sep !in b
    ensures Split(a + [sep] + b, sep) == [a, b]
  {
    var s := a + [sep] + b;
    BeforeFirst(a, sep, b);
    assert s[..|a|] == a && s[|a| + 1..] == b;
    assert Split(b, sep) == [b];
  }

  function WordLength(s: string): nat
    ensures WordLength(s) <= |s|
    ensures s != [] && !IsSpace(s[0]) ==> WordLength(s) > 0
  {
    if s == [] || IsSpace(s[0]) then 0 else 1 + WordLength(s[1..])
  }

  /** Fields separated by runs of whitespace. */
  function Fields(s: string): seq<string>
    decreases |s|
  {
    if s == [] then []
    else if IsSpace(s[0]) then Fields(s[1..])
    else [s[..WordLength(s)]] + Fields(s[WordLength(s)..])
  }

  lemma {:induction false} WordIsMeasured(w: string, rest: string)
    requires NoSpace(w) && (rest == [] || IsSpace(rest[0]))
    ensures WordLength(w + rest) == |w|
  {
    if w == [] {
      assert w + rest == rest;
    } else {
      assert (w + rest)[1..] == w[1..] + rest;
      WordIsMeasured(w[1..], rest);
    }
  }

  lemma FirstField(w: string, rest: string)
    requires IsWord(w)
    ensures Fields(w + " " + rest) == [w] + Fields(rest)
  {
    var s := w + (" " + rest);
    assert w + " " + rest == s;
    WordIsMeasured(w, " " + rest);
    assert s[0] == w[0];
    assert s[..|w|] == w && s[|w|..] == " " + rest;
    assert (" " + rest)[1..] == rest;
  }

  lemma LastField(w: string)
    requires IsWord(w)
    ensures Fields(w) == [w]
  {
    WordIsMeasured(w, []);
    assert w + [] == w && w[..|w|] == w;
  }

  lemma {:induction false} WordLengthIsNoSpace(s: string)
    ensures NoSpace(s[..WordLength(s)])
  {
    if s != [] && !IsSpace(s[0]) {
      WordLengthIsNoSpace(s[1..]);
      assert s[..WordLength(s)] == [s[0]] + s[1..][..WordLength(s[1..])];
    }
  }

  lemma {:induction false} FieldsAreWords(s: string)
    ensures forall f | f in Fields(s) :: IsWord(f)
    decreases |s|
  {
    if s != [] {
      if IsSpace(s[0]) {
        FieldsAreWords(s[1..]);
      } else {
        WordLengthIsNoSpace(s);
        FieldsAreWords(s[WordLength(s)..]);
      }
    }
  }

  /** filepath.Join below a rooted prefix: stack holds the components so far. */
  function Clean(parts: seq<string>, stack: seq<string>): seq<string> {
    if parts == [] then stack
    else if parts[0] == "" || parts[0] == "." then Clean(parts[1..], stack)
    else if parts[0] == ".." then Clean(parts[1..], if stack == [] then [] else stack[..|stack| - 1])
    else Clean(parts[1..], stack + [parts[0]])
  }

  function Join(parts: seq<string>): string {
    if parts == [] then ""
    else if |parts| == 1 then parts[0]
    else parts[0] + "/" + Join(parts[1..])
  }

  function Home(username: string): string {
    if username == "root" then "/root" else "/" + Join(Clean(Split(username, '/'), ["home"]))
  }

  /** A path component that is not special. */
  predicate IsPlain(part: string) {
    part != "" && '/' !in part && part != "." && part != ".."
  }

  lemma HomeOfUser(username: string)
    ensures Home("root") == "/root"
    ensures username != "root" && IsPlain(username) ==> Home(username) == "/home/" + username
  {
    if IsPlain(username) {
      assert Split(username, '/') == [username];
      assert Clean([username], ["home"]) == Clean([], ["home", username]);
      assert Join(["home", username]) == "home" + "/" + Join([username]);
    }
  }

  /** Splitting loses nothing, and no part has a separator. */
  lemma {:induction false} SplitThenJoin(s: string)
    ensures Join(Split(s, '/')) == s && forall p | p in Split(s, '/') :: '/' !in p
    decreases |s|
  {
    var n := Before(s, '/');
    if n < |s| {
      SplitThenJoin(s[n + 1..]);
      assert s == s[..n] + "/" + s[n + 1..];
    }
  }

  lemma {:induction false} CleanOfConcat(a: seq<string>, b: seq<string>, stack: seq<string>)
    ensures Clean(a + b, stack) == Clean(b, Clean(a, stack))
  {
    if a == [] {
      assert a + b == b;
    } else {
      assert (a + b)[1..] == a[1..] + b;
      CleanOfConcat(a[1..], b, stack);
      CleanOfConcat(a[1..], b, stack + [a[0]]);
      CleanOfConcat(a[1..], b, if stack == [] then [] else stack[..|stack| - 1]);
    }
  }

  /** The laws of a cleaned path: empty components and "." do not matter, ".." takes back the
      component before it, and other components stay as they are. */
  lemma DotIsNothing(a: seq<string>, x: string, b: seq<string>, stack: seq<string>)
    requires x == "" || x == "."
    ensures Clean(a + [x] + b, stack) == Clean(a + b, stack)
  {
    CleanOfConcat(a, b, stack);
    CleanOfConcat(a, [x] + b, stack);
    assert a + [x] + b == a + ([x] + b) && ([x] + b)[1..] == b;
  }

  lemma PlainStays(a: seq<string>, x: string, stack: seq<string>)
    requires IsPlain(x)
    ensures Clean(a + [x], stack) == Clean(a, stack) + [x]
  {
    CleanOfConcat(a, [x], stack);
  }

  lemma DotDotTakesBack(a: seq<string>, x: string, b: seq<string>, stack: seq<string>)
    requires IsPlain(x)
    ensures Clean(a + [x, ".."] + b, stack) == Clean(a + b, stack)
  {
    PlainStays(a, x, stack);
    CleanOfConcat(a, b, stack);
    CleanOfConcat(a + [x], [".."] + b, stack);
    var done := Clean(a, stack);
    assert a + [x, ".."] + b == (a + [x]) + ([".."] + b) && ([".."] + b)[1..] == b;
    assert (done + [x])[..|done + [x]| - 1] == done;
  }

  lemma RootHasNoParent(b: seq<string>)
    ensures Clean([".."] + b, []) == Clean(b, [])
  {
    assert ([".."] + b)[1..] == b;
  }

  ghost predicate EachIn(parts: seq<string>, k: Class) {
    forall i | 0 <= i < |parts| :: AllIn(parts[i], k)
  }

  lemma {:induction false} SplitKeepsClass(s: string, k: Class)
    requires AllIn(s, k)
    ensures EachIn(Split(s, '/'), k)
    decreases |s|
  {
    var n := Before(s, '/');
    if n < |s| {
      SplitKeepsClass(s[n + 1..], k);
    }
  }

  lemma {:induction false} CleanKeepsClass(parts: seq<string>, stack: seq<string>, k: Class)
    requires EachIn(parts, k) && EachIn(stack, k)
    ensures EachIn(Clean(parts, stack), k)
  {
    if parts != [] {
      if parts[0] == "" || parts[0] == "." {
        CleanKeepsClass(parts[1..], stack, k);
      } else if parts[0] == ".." {
        CleanKeepsClass(parts[1..], if stack == [] then [] else stack[..|stack| - 1], k);
      } else {
        CleanKeepsClass(parts[1..], stack + [parts[0]], k);
      }
    }
  }

  lemma {:induction false} JoinKeepsClass(parts: seq<string>, k: Class)
    requires EachIn(parts, k)
    ensures AllIn(Join(parts), k)
  {
    if |parts| > 1 {
      JoinKeepsClass(parts[1..], k);
      assert Join(parts) == parts[0] + "/" + Join(parts[1..]);
    }
  }

  lemma HomeKeepsClass(username: string, k: Class)
    requires AllIn(username, k)
    ensures AllIn(Home(username), k) && Home(username) != []
  {
    if username != "root" {
      SplitKeepsClass(username, k);
      assert AllIn("home", k);
      CleanKeepsClass(Split(username, '/'), ["home"], k);
      JoinKeepsClass(Clean(Split(username, '/'), ["home"]), k);
    }
  }

  // ---- the credential ----

  /** Words with one space between them. */
  function Line(words: seq<string>): string {
    if words == [] then "" else if |words| == 1 then words[0] else words[0] + " " + Line(words[1..])
  }

  function DirWords(home: string, username: string): seq<string> {
    ["d", home + "/.ssh", "0750", username, username, "-"]
  }

  function KeyWords(home: string, username: string, key: string): seq<string> {
    ["f+~", home + "/.ssh/authorized_keys", "700", username, username, "-", Encode(key)]
  }

  /** The two tmpfiles.d lines of tmpFileSshKey. */
  function TmpFileCmd(username: string, key: string): string {
    Line(DirWords(Home(username), username)) + ['\n'] + Line(KeyWords(Home(username), username, key))
  }

  function TmpFileSshKey(username: string, pubKey: Option<string>): Option<string> {
    if pubKey.None? then None
    else Some(Encode(TmpFileCmd(username, pubKey.value)))
  }

  /** oemString: the argument of qemu's -smbios option; pubKey is None if the key file cannot be read. */
  function OemString(username: string, pubKey: Option<string>): Option<string> {
    var cmd := TmpFileSshKey(username, pubKey);
    if cmd.None? then None
    else Some(PREFIX + cmd.value)
  }

  /** What a reader of the credential learns: the directory and the file to create, and the
      contents of the file. */
  datatype Item = Item(path: string, mode: string, user: string, group: string, age: string)

  datatype Injected = Injected(dir: Item, file: Item, key: string)

  const TYPE := "type=11"
  const VALUE := "value="
  const CREDENTIAL := "io.systemd.credential.binary:"
  const TMPFILES := "tmpfiles.extra="
  const PREFIX := TYPE + [','] + (VALUE + CREDENTIAL + TMPFILES)

  /** The reader: strip the SMBIOS and credential names, decode, split into lines and fields,
      decode the key. */
  function ReadCredential(argument: string): Option<Injected> {
    if !(PREFIX <= argument) || Decode(argument[|PREFIX|..]).None? then None
    else ReadLines(Split(Decode(argument[|PREFIX|..]).value, '\n'))
  }

  function ReadLines(lines: seq<string>): Option<Injected> {
    if |lines| != 2 then None
    else
      var d, f := Fields(lines[0]), Fields(lines[1]);
      if |d| != 6 || |f| != 7 || d[0] != "d" || f[0] != "f+~" then None
      else
        var key := Decode(f[6]);
        if key.None? then None
        else Some(Injected(Item(d[1], d[2], d[3], d[4], d[5]), Item(f[1], f[2], f[3], f[4], f[5]), key.value))
  }

  lemma {:induction false} FieldsOfLine(words: seq<string>)
    requires forall i | 0 <= i < |words| :: IsWord(words[i])
    ensures Fields(Line(words)) == words
  {
    if |words| == 1 {
      LastField(words[0]);
    } else if |words| > 1 {
      FieldsOfLine(words[1..]);
      FirstField(words[0], Line(words[1..]));
    }
  }

  lemma {:induction false} LineHasNoNewline(words: seq<string>)
    requires forall i | 0 <= i < |words| :: NoSpace(words[i])
    ensures '\n' !in Line(words)
  {
    if |words| > 1 {
      LineHasNoNewline(words[1..]);
      assert '\n' !in words[0] && '\n' !in " ";
    }
  }

  /** The words of both lines can be split off again exactly when the user name is a word
      and there is a key. */
  lemma WordsAreWords(username: string, key: string)
    requires IsWord(username) && key != []
    ensures forall i | 0 <= i < 6 :: IsWord(DirWords(Home(username), username)[i])
    ensures forall i | 0 <= i < 7 :: IsWord(KeyWords(Home(username), username, key)[i])
  {
    HomeKeepsClass(username, NotSpace);
    EncodeStaysInAlphabet(key);
    PathsAreWords(Home(username));
    assert IsWord("d") && IsWord("0750") && IsWord("-") && IsWord("f+~") && IsWord("700") && IsWord(Encode(key));
  }

  lemma PathsAreWords(home: string)
    requires NoSpace(home)
    ensures IsWord(home + "/.ssh") && IsWord(home + "/.ssh/authorized_keys")
  {
  }

  lemma {:induction false} LineKeepsBytes(words: seq<string>)
    requires EachIn(words, OneByte)
    ensures IsBytes(Line(words))
  {
    if |words| > 1 {
      LineKeepsBytes(words[1..]);
      assert Line(words) == words[0] + " " + Line(words[1..]);
    }
  }

  lemma PathsAreBytes(home: string)
    requires IsBytes(home)
    ensures IsBytes(home + "/.ssh") && IsBytes(home + "/.ssh/authorized_keys")
  {
  }

  lemma WordsAreBytes(username: string, key: string)
    requires IsBytes(username)
    ensures EachIn(DirWords(Home(username), username), OneByte)
    ensures EachIn(KeyWords(Home(username), username, key), OneByte)
  {
    HomeKeepsClass(username, OneByte);
    EncodeStaysInAlphabet(key);
    PathsAreBytes(Home(username));
    assert IsBytes("d") && IsBytes("0750") && IsBytes("-") && IsBytes("f+~") && IsBytes("700") && IsBytes(Encode(key));
  }

  lemma CommandIsRecovered(username: string, key: string)
    requires IsBytes(username)
    ensures ReadCredential(PREFIX + Encode(TmpFileCmd(username, key)))
         == ReadLines(Split(TmpFileCmd(username, key), '\n'))
  {
    WordsAreBytes(username, key);
    LineKeepsBytes(DirWords(Home(username), username));
    LineKeepsBytes(KeyWords(Home(username), username, key));
    var cmd := TmpFileCmd(username, key);
    DecodeEncode(cmd);
    assert (PREFIX + Encode(cmd))[|PREFIX|..] == Encode(cmd);
  }

  lemma LinesAreRecovered(username: string, key: string)
    requires IsWord(username) && IsBytes(key) && key != []
    ensures ReadLines(Split(TmpFileCmd(username, key), '\n'))
      == Some(SshAccess(Home(username), username, key))
  {
    var d, f := DirWords(Home(username), username), KeyWords(Home(username), username, key);
    WordsAreWords(username, key);
    FieldsOfLine(d);
    FieldsOfLine(f);
    LineHasNoNewline(d);
    LineHasNoNewline(f);
    SplitOnce(Line(d), '\n', Line(f));
    DecodeEncode(key);
  }

  lemma WhatIsReadIsAWord(lines: seq<string>)
    requires ReadLines(lines).Some?
    ensures IsWord(ReadLines(lines).value.file.user) && ReadLines(lines).value.key != []
  {
    FieldsAreWords(lines[1]);
    var f := Fields(lines[1]);
    assert f[3] in f && f[6] in f;
    if Decode(f[6]) == Some([]) {
      DecodeOfSomething(f[6]);
    }
  }

  /** The directory and the file that let the key into this home. */
  function SshAccess(home: string, username: string, key: string): Injected {
    Injected(Item(home + "/.ssh", "0750", username, username, "-"),
             Item(home + "/.ssh/authorized_keys", "700", username, username, "-"), key)
  }

  lemma AccessIsRecovered(username: string, key: string)
    requires IsBytes(username) && IsBytes(key)
    ensures ReadCredential(PREFIX + Encode(TmpFileCmd(username, key))) == Some(SshAccess(Home(username), username, key))
      <==> IsWord(username) && key != []
  {
    CommandIsRecovered(username, key);
    var lines := Split(TmpFileCmd(username, key), '\n');
    if IsWord(username) && key != [] {
      LinesAreRecovered(username, key);
    } else if ReadLines(lines).Some? {
      WhatIsReadIsAWord(lines);
    }
  }

  /** What was read gives the key access to the home of the user, with the modes and the owner
      of the directory and the file, and with the exact bytes of the key, exactly when the user
      name is not empty and has no whitespace and the key is not empty.  The home is /root for
      root and /home/name for every other plain name. */
  ghost predicate Tells(read: Option<Injected>, username: string, key: string) {
    && (read == Some(SshAccess(Home(username), username, key)) <==> IsWord(username) && key != [])
    && (username == "root" && key != [] ==>
          read == Some(Injected(Item("/root/.ssh", "0750", "root", "root", "-"),
                                Item("/root/.ssh/authorized_keys", "700", "root", "root", "-"), key)))
    && (IsWord(username) && key != [] && username != "root" && IsPlain(username) ==>
          read == Some(Injected(Item("/home/" + username + "/.ssh", "0750", username, username, "-"),
                                Item("/home/" + username + "/.ssh/authorized_keys", "700", username, username, "-"),
                                key)))
  }

  lemma AccessTells(read: Option<Injected>, username: string, key: string)
    requires read == Some(SshAccess(Home(username), username, key)) <==> IsWord(username) && key != []
    ensures Tells(read, username, key)
  {
    HomeOfUser(username);
    RootAccess(key);
    if username == "root" {
      RootIsAWord();
    }
  }

  lemma RootIsAWord()
    ensures IsWord("root")
  {
  }

  lemma RootAccess(key: string)
    ensures SshAccess("/root", "root", key)
      == Injected(Item("/root/.ssh", "0750", "root", "root", "-"),
                  Item("/root/.ssh/authorized_keys", "700", "root", "root", "-"), key)
  {
    assert "/root" + "/.ssh" == "/root/.ssh" && "/root" + "/.ssh/authorized_keys" == "/root/.ssh/authorized_keys";
  }

  /** The credential tells its reader all of this. */
  lemma CredentialRoundTrip(username: string, key: string)
    requires IsBytes(username) && IsBytes(key)
    ensures OemString(username, Some(key)).Some?
    ensures Tells(ReadCredential(OemString(username, Some(key)).value), username, key)
  {
    OemStringInFull(username, key);
    AccessIsRecovered(username, key);
    AccessTells(ReadCredential(OemString(username, Some(key)).value), username, key);
  }

  lemma OemStringInFull(username: string, key: string)
    ensures OemString(username, Some(key)) == Some(PREFIX + Encode(TmpFileCmd(username, key)))
  {
  }

  /** The names that qemu and systemd look for, before the encoded lines. */
  lemma ArgumentInFull(username: string, key: string)
    ensures OemString(username, Some(key)).value
      == "type=11," + "value=io.systemd.credential.binary:tmpfiles.extra=" + Encode(TmpFileCmd(username, key))
  {
    ValueInFull();
    assert TYPE + [','] == "type=11,";
  }

  lemma ValueInFull()
    ensures VALUE + CREDENTIAL + TMPFILES == "value=io.systemd.credential.binary:tmpfiles.extra="
  {
    assert VALUE + CREDENTIAL == "value=io.systemd.credential.binary:";
    assert "value=io.systemd.credential.binary:" + "tmpfiles.extra="
        == "value=io.systemd.credential.binary:tmpfiles.extra=";
  }

  predicate XmlSpecial(c: char) {
    c == '<' || c == '>' || c == '&' || c == '\'' || c == '"'
  }

  predicate Plain(c: char) {
    c != ',' && !XmlSpecial(c)
  }

  ghost predicate AllPlain(s: string) {
    forall i | 0 <= i < |s| :: Plain(s[i])
  }

  lemma TypeIsPlain()
    ensures AllPlain(TYPE) && |TYPE| == 7
  {
  }

  lemma ValueIsPlain()
    ensures AllPlain(VALUE)
  {
  }

  lemma CredentialIsPlain()
    ensures AllPlain(CREDENTIAL)
  {
  }

  lemma TmpfilesIsPlain()
    ensures AllPlain(TMPFILES)
  {
  }

  lemma PlainConcat(a: string, b: string)
    requires AllPlain(a) && AllPlain(b)
    ensures AllPlain(a + b)
  {
  }

  lemma OneCommaBetween(a: string, b: string)
    requires AllPlain(a) && AllPlain(b)
    ensures var s := a + [','] + b; forall i | 0 <= i < |s| :: (s[i] == ',' <==> i == |a|) && !XmlSpecial(s[i])
  {
  }

  lemma PrefixIsSafe()
    ensures forall i | 0 <= i < |PREFIX| :: (PREFIX[i] == ',' <==> i == 7) && !XmlSpecial(PREFIX[i])
  {
    TypeIsPlain();
    ValueIsPlain();
    CredentialIsPlain();
    TmpfilesIsPlain();
    PlainConcat(VALUE, CREDENTIAL);
    PlainConcat(VALUE + CREDENTIAL, TMPFILES);
    OneCommaBetween(TYPE, VALUE + CREDENTIAL + TMPFILES);
  }

  /** The argument can stand in the domain XML and in qemu's comma-separated option: it has no
      special character of XML, and one comma, after type=11. */
  lemma ArgumentIsSafe(username: string, key: string)
    ensures var argument := OemString(username, Some(key)).value;
      forall i | 0 <= i < |argument| :: (argument[i] == ',' <==> i == 7) && !XmlSpecial(argument[i])
  {
    PrefixIsSafe();
    var payload := Encode(TmpFileCmd(username, key));
    EncodeStaysInAlphabet(TmpFileCmd(username, key));
    var argument := PREFIX + payload;
    forall i | 0 <= i < |argument| ensures (argument[i] == ',' <==> i == 7) && !XmlSpecial(argument[i]) {
      if i >= |PREFIX| {
        assert argument[i] == payload[i - |PREFIX|] && InAlphabet(payload[i - |PREFIX|]);
      }
    }
  }
}
