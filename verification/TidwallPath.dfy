/** The path printer of jsonparser/tidwall.go, and the reading of its output: components are separated by dots not
    preceded by a backslash, a backslash makes the next character literal, a bare integer is an array index,
    a colon before an integer makes it a key, and any other bare punctuation but '_' and '-' makes it something else
    than a literal key. Strings are of bytes, for which any character stands. */
module TidwallPath {
  // ---------------------------------------------------------------- printing

  predicate Digits(s: string) {
    s != "" && forall i :: 0 <= i < |s| ==> '0' <= s[i] <= '9'
  }

  /** An integer in base 10, signed or not. */
  predicate SignedInteger(s: string) {
    s != "" && (if s[0] == '+' || s[0] == '-' then Digits(s[1..]) else Digits(s))
  }

  /** An array index: an integer between brackets. */
  predicate ArrayIndex(key: string) {
    |key| >= 3 && key[0] == '[' && key[|key| - 1] == ']' && SignedInteger(key[1..|key| - 1])
  }

  predicate SafeChar(c: char) {
    'a' <= c <= 'z' || 'A' <= c <= 'Z' || '0' <= c <= '9' || c <= ' ' || c > '~' || c == '_' || c == '-'
  }

  /** The characters a path may give a meaning to: all ASCII punctuation but the underscore and the hyphen. */
  predicate Syntax(c: char) {
    c in "!\"#$%&'()*+,./:;<=>?@[\\]^`{|}~"
  }

  /** No character of the key is syntax. */
  predicate Safe(key: string) {
    forall i :: 0 <= i < |key| ==> !Syntax(key[i])
  }

  lemma SyntaxIsUnsafe(c: char)
    ensures SafeChar(c) <==> !Syntax(c)
  {
  }

  function EscapedChar(c: char): string {
    if SafeChar(c) then [c] else ['\\', c]
  }

  function Escaped(key: string): string {
    if key == "" then "" else EscapedChar(key[0]) + Escaped(key[1..])
  }

  /** What a path element prints as, given what becomes of an integer. */
  function Part(key: string, numeric: string -> string): string {
    if ArrayIndex(key) then key[1..|key| - 1] else if SignedInteger(key) then numeric(key) else Escaped(key)
  }

  function Joined(parts: seq<string>): string {
    if parts == [] then "" else if |parts| == 1 then parts[0] else parts[0] + "." + Joined(parts[1..])
  }

  function Parts(path: seq<string>, numeric: string -> string): seq<string> {
    seq(|path|, i requires 0 <= i < |path| => Part(path[i], numeric))
  }

  function Printed(path: seq<string>, numeric: string -> string): string {
    Joined(Parts(path, numeric))
  }

  /** The elements that print as they are. */
  predicate Plain(key: string) {
    ArrayIndex(key) || (key != "" && Safe(key) && !SignedInteger(key))
  }

  const LITERAL: string -> string := key => "\\" + key
  const COLON: string -> string := key => ":" + key

  // ---------------------------------------------------------------- reading

  function Prepend(s: string, parts: seq<string>): seq<string>
    requires parts != []
  {
    [s + parts[0]] + parts[1..]
  }

  /** The components of a printed path, still escaped. */
  function Split(s: string): (parts: seq<string>)
    ensures parts != []
  {
    if s == "" then [""]
    else if s[0] == '.' then [""] + Split(s[1..])
    else if s[0] == '\\' && |s| > 1 then Prepend(s[..2], Split(s[2..]))
    else Prepend(s[..1], Split(s[1..]))
  }

  function Unescaped(s: string): string {
    if s == "" then ""
    else if s[0] == '\\' && |s| > 1 then [s[1]] + Unescaped(s[2..])
    else [s[0]] + Unescaped(s[1..])
  }

  /** Escapes are complete and every character of the syntax has its backslash. */
  predicate Literal(part: string) {
    part == "" ||
    if part[0] == '\\' then |part| > 1 && Literal(part[2..]) else !Syntax(part[0]) && Literal(part[1..])
  }

  /** A sign or none, and digits. */
  predicate Numeric(s: string) {
    && s != "" && '0' <= s[|s| - 1] <= '9'
    && forall i :: 0 <= i < |s| ==> '0' <= s[i] <= '9' || (i == 0 && (s[i] == '+' || s[i] == '-'))
  }

  lemma NumericExactly(s: string)
    ensures SignedInteger(s) <==> Numeric(s)
  {
    if SignedInteger(s) && (s[0] == '+' || s[0] == '-') {
      assert forall i :: 0 < i < |s| ==> s[i] == s[1..][i - 1];
    }
  }

  /** What a component stands for: an array index, a key of an object, or something else, as a wildcard, a query or
      a modifier. */
  datatype Component = Index(n: string) | Member(key: string) | Other

  function Element(part: string): Component {
    if Numeric(part) then Index(part)
    else if part != "" && part[0] == ':' && Numeric(part[1..]) then Member(part[1..])
    else if Literal(part) then Member(Unescaped(part))
    else Other
  }

  function Decoded(s: string): seq<Component> {
    var parts := Split(s);
    seq(|parts|, i requires 0 <= i < |parts| => Element(parts[i]))
  }

  /** What the package takes a path element for: an integer between brackets is an array index, and anything else is
      a key. */
  function Meaning(key: string): Component {
    if |key| >= 2 && key[0] == '[' && key[|key| - 1] == ']' && Numeric(key[1..|key| - 1]) then Index(key[1..|key| - 1])
    else Member(key)
  }

  function Meant(path: seq<string>): (r: seq<Component>)
    ensures |r| == |path|
  {
    seq(|path|, i requires 0 <= i < |path| => Meaning(path[i]))
  }

  /** Escapes are complete and no dot is bare. */
  predicate Whole(part: string) {
    part == "" ||
    if part[0] == '\\' then |part| > 1 && Whole(part[2..]) else part[0] != '.' && Whole(part[1..])
  }

  /** A formatter whose output reads back as the integer key it was given. */
  ghost predicate Faithful(numeric: string -> string) {
    forall n :: SignedInteger(n) ==> Whole(numeric(n)) && Element(numeric(n)) == Member(n)
  }

  lemma {:induction false} SplitWhole(part: string, rest: string)
    requires Whole(part)
    ensures Split(part) == [part]
    ensures Split(part + "." + rest) == [part] + Split(rest)
  {
    var s := part + "." + rest;
    if part == "" {
      assert s[1..] == rest;
    } else if part[0] == '\\' {
      SplitWhole(part[2..], rest);
      assert s[..2] == part[..2] && s[2..] == part[2..] + "." + rest;
      assert part[..2] + part[2..] == part;
    } else {
      SplitWhole(part[1..], rest);
      assert s[..1] == part[..1] && s[1..] == part[1..] + "." + rest;
      assert part[..1] + part[1..] == part;
    }
  }

  lemma {:induction false} SplitJoined(parts: seq<string>)
    requires parts != [] && forall i :: 0 <= i < |parts| ==> Whole(parts[i])
    ensures Split(Joined(parts)) == parts
  {
    if |parts| == 1 {
      SplitWhole(parts[0], "");
    } else {
      SplitJoined(parts[1..]);
      SplitWhole(parts[0], Joined(parts[1..]));
    }
  }

  lemma {:induction false} EscapedReads(key: string)
    ensures Whole(Escaped(key)) && Unescaped(Escaped(key)) == key
    ensures Literal(Escaped(key)) && (Escaped(key) == key <==> Safe(key))
    ensures |Escaped(key)| >= |key| && (!Safe(key) ==> '\\' in Escaped(key))
  {
    if key != "" {
      EscapedReads(key[1..]);
      SyntaxIsUnsafe(key[0]);
      var e, rest := Escaped(key), Escaped(key[1..]);
      if SafeChar(key[0]) {
        assert e[1..] == rest;
        assert key == [key[0]] + key[1..];
        assert Safe(key) <==> Safe(key[1..]);
      } else {
        assert e[2..] == rest && !Safe(key);
      }
    }
  }

  /** Without backslashes nothing changes. */
  lemma {:induction false} DigitsRead(s: string)
    requires forall i :: 0 <= i < |s| ==> '0' <= s[i] <= '9'
    ensures Unescaped(s) == s && Whole(s) && Literal(s)
  {
    if s != "" {
      SyntaxIsUnsafe(s[0]);
      hide Syntax;
      DigitsRead(s[1..]);
    }
  }

  lemma IntegersAreWhole(n: string)
    requires SignedInteger(n)
    ensures Whole(n) && Unescaped(n[1..]) == n[1..] && Whole(n[1..]) && Literal(n[1..]) && '\\' !in n
  {
    assert n == [n[0]] + n[1..];
    DigitsRead(n[1..]);
  }

  /** Both formatters of the package read back. */
  lemma BothAreFaithful()
    ensures Faithful(LITERAL) && Faithful(COLON)
  {
    forall n | SignedInteger(n) ensures Whole(LITERAL(n)) && Element(LITERAL(n)) == Member(n) {
      IntegersAreWhole(n);
      var r := "\\" + n;
      assert r[2..] == n[1..] && |r| > 1 && r[0] == '\\';
      assert Literal(r) && Unescaped(r) == [n[0]] + n[1..] == n;
    }
    forall n | SignedInteger(n) ensures Whole(COLON(n)) && Element(COLON(n)) == Member(n) {
      IntegersAreWhole(n);
      NumericExactly(n);
      assert COLON(n)[1..] == n;
    }
  }

  lemma KeyReads(key: string)
    requires !SignedInteger(key)
    ensures Whole(Escaped(key)) && Element(Escaped(key)) == Member(key)
  {
    EscapedReads(key);
    NumericExactly(Escaped(key));
    var e := Escaped(key);
    assert e == "" || e[0] != ':';
    hide Whole, Unescaped, Safe, Escaped, Digits, Literal;
    if SignedInteger(e) {
      IntegersAreWhole(e);
    }
  }

  lemma PartReads(key: string, numeric: string -> string)
    requires Faithful(numeric)
    ensures Whole(Part(key, numeric)) && Element(Part(key, numeric)) == Meaning(key)
  {
    if |key| >= 2 {
      NumericExactly(key[1..|key| - 1]);
    }
    hide Whole, Unescaped, Escaped, Digits, Literal, Numeric;
    if ArrayIndex(key) {
      IntegersAreWhole(key[1..|key| - 1]);
    } else if !SignedInteger(key) {
      KeyReads(key);
    }
  }

  /** Reading undoes printing, for every path that is not empty. */
  lemma RoundTrip(path: seq<string>, numeric: string -> string)
    requires path != [] && Faithful(numeric)
    ensures Decoded(Printed(path, numeric)) == Meant(path)
  {
    var parts := Parts(path, numeric);
    forall i | 0 <= i < |parts| ensures Whole(parts[i]) && Element(parts[i]) == Meaning(path[i]) {
      PartReads(path[i], numeric);
    }
    SplitJoined(parts);
  }

  lemma BracketsDiffer(k: string, l: string)
    requires Meaning(k) == Meaning(l)
    ensures k == l
  {
    hide Numeric;
    assert Meaning(k).Index? ==> k == "[" + k[1..|k| - 1] + "]" && l == "[" + l[1..|l| - 1] + "]";
  }

  lemma MeantIsInjective(p: seq<string>, q: seq<string>)
    ensures Meant(p) == Meant(q) ==> p == q
  {
    if Meant(p) == Meant(q) {
      assert |p| == |Meant(p)| == |Meant(q)| == |q|;
      forall i | 0 <= i < |p| ensures p[i] == q[i] {
        assert Meant(p)[i] == Meant(q)[i];
        BracketsDiffer(p[i], q[i]);
      }
    }
  }

  /** In what is printed every character of an object key that may be syntax has a backslash before it, an array
      index is a bare integer, and an integer key is what the formatter makes of it. */
  lemma PrintedIsLiteral(path: seq<string>, numeric: string -> string, i: nat)
    requires i < |path| && Faithful(numeric)
    ensures var parts := Split(Printed(path, numeric));
            |parts| == |path| &&
            if ArrayIndex(path[i]) then SignedInteger(parts[i]) && path[i] == "[" + parts[i] + "]"
            else if SignedInteger(path[i]) then parts[i] == numeric(path[i])
            else Literal(parts[i]) && Unescaped(parts[i]) == path[i] && (parts[i] == path[i] <==> Safe(path[i]))
  {
    hide Whole, Unescaped, Escaped, Digits, Literal, Element, Safe, Split, Joined;
    var parts := Parts(path, numeric);
    forall k | 0 <= k < |parts| ensures Whole(parts[k]) {
      PartReads(path[k], numeric);
    }
    SplitJoined(parts);
    EscapedReads(path[i]);
  }

  /** So no two paths print alike, except the empty path and the path of the empty key; a path for reading and one
      for writing print alike only if they are the same. */
  lemma PrintingIsInjective(p: seq<string>, f: string -> string, q: seq<string>, g: string -> string)
    requires Faithful(f) && Faithful(g) && Printed(p, f) == Printed(q, g)
    ensures p == q || (p == [] && q == [""]) || (p == [""] && q == [])
  {
    if p != [] {
      RoundTrip(p, f);
    }
    if q != [] {
      RoundTrip(q, g);
    }
    assert Decoded("") == Meant([""]);
    MeantIsInjective(p, q);
    MeantIsInjective(p, [""]);
    MeantIsInjective(q, [""]);
  }

  // ---------------------------------------------------------------- the functions of the package

  method IsSignedInteger(s: string) returns (yes: bool)
    ensures yes == SignedInteger(s)
  {
    if s == "" {
      return false;
    }
    var start := 0;
    if s[0] == '+' || s[0] == '-' {
      if |s| == 1 {
        return false;
      }
      start := 1;
    }
    for i := start to |s|
      invariant forall j :: start <= j < i ==> '0' <= s[j] <= '9'
    {
      if s[i] < '0' || s[i] > '9' {
        assert s[start..][i - start] == s[i];
        return false;
      }
    }
    assert Digits(s[start..]);
    return true;
  }

  method IsArrayIndexPath(key: string) returns (yes: bool)
    ensures yes == ArrayIndex(key)
  {
    if |key| < 3 || key[0] != '[' || key[|key| - 1] != ']' {
      return false;
    }
    yes := IsSignedInteger(key[1..|key| - 1]);
  }

  method NeedsEscaping(key: string) returns (yes: bool)
    ensures yes == !Safe(key)
  {
    for i := 0 to |key|
      invariant forall j :: 0 <= j < i ==> !Syntax(key[j])
    {
      SyntaxIsUnsafe(key[i]);
      if !SafeChar(key[i]) {
        return true;
      }
    }
    return false;
  }

  lemma {:induction false} EscapedAppend(key: string, c: char)
    ensures Escaped(key + [c]) == Escaped(key) + EscapedChar(c)
  {
    if key == "" {
      assert key + [c] == [c] && Escaped("") == "";
    } else {
      EscapedAppend(key[1..], c);
      assert (key + [c])[1..] == key[1..] + [c];
    }
  }

  method Escape(key: string) returns (b: string)
    ensures b == Escaped(key)
  {
    b := "";
    for i := 0 to |key|
      invariant b == Escaped(key[..i])
    {
      EscapedAppend(key[..i], key[i]);
      assert key[..i + 1] == key[..i] + [key[i]];
      if !SafeChar(key[i]) {
        b := b + "\\";
      }
      b := b + [key[i]];
    }
    assert key[..|key|] == key;
  }

  method Build(path: seq<string>, numeric: string -> string) returns (r: string)
    ensures r == Printed(path, numeric)
  {
    hide SignedInteger, Escaped;
    if |path| == 0 {
      return "";
    }
    var parts: seq<string> := [];
    for i := 0 to |path|
      invariant parts == Parts(path[..i], numeric)
    {
      var key := path[i];
      var index := IsArrayIndexPath(key);
      if index {
        parts := parts + [key[1..|key| - 1]];
        continue;
      }
      var integer := IsSignedInteger(key);
      if integer {
        parts := parts + [numeric(key)];
        continue;
      }
      var e := Escape(key);
      parts := parts + [e];
    }
    assert path[..|path|] == path;
    r := Joined(parts);
  }

  lemma {:induction false} JoinedAppend(parts: seq<string>, part: string)
    ensures Joined(parts + [part]) == (if parts == [] then part else Joined(parts) + "." + part)
  {
    if |parts| == 1 {
      assert (parts + [part])[1..] == [part];
    } else if |parts| > 1 {
      JoinedAppend(parts[1..], part);
      assert (parts + [part])[1..] == parts[1..] + [part];
    }
  }

  /** What a plain element prints as, whatever is done with integers. */
  lemma PlainPart(key: string, numeric: string -> string)
    requires Plain(key)
    ensures Part(key, numeric) == if ArrayIndex(key) then key[1..|key| - 1] else key
  {
    EscapedReads(key);
  }

  lemma PrintedNext(path: seq<string>, i: nat, numeric: string -> string)
    requires i < |path| && Plain(path[i])
    ensures Printed(path[..i + 1], numeric) == Printed(path[..i], numeric) + (if i == 0 then "" else ".")
                                               + if ArrayIndex(path[i]) then path[i][1..|path[i]| - 1] else path[i]
  {
    PlainPart(path[i], numeric);
    assert Parts(path[..i + 1], numeric) == Parts(path[..i], numeric) + [Part(path[i], numeric)];
    JoinedAppend(Parts(path[..i], numeric), Part(path[i], numeric));
  }

  /** The length of the builder the fast path asks for. */
  function PlainLength(path: seq<string>): int {
    if path == [] then 0
    else PlainLength(path[..|path| - 1]) + (var key := path[|path| - 1]; if ArrayIndex(key) then |key| - 2 else |key|)
  }

  /** The fast path takes exactly the paths whose elements are all plain, and prints them as the slow path does,
      whatever its formatter, into a builder of exactly the length computed. */
  method TryFast(path: seq<string>) returns (r: string, ok: bool)
    ensures ok <==> forall i :: 0 <= i < |path| ==> Plain(path[i])
    ensures ok ==> forall numeric: string -> string :: r == Printed(path, numeric)
    ensures ok && path != [] ==> |r| == PlainLength(path) + |path| - 1
  {
    hide SignedInteger;
    if |path| == 0 {
      return "", true;
    }
    for i := 0 to |path|
      invariant forall j :: 0 <= j < i ==> Plain(path[j])
    {
      var key := path[i];
      var index := IsArrayIndexPath(key);
      if !index {
        if key == "" || '.' in key {
          return "", false;
        }
        var integer := IsSignedInteger(key);
        var escaping := NeedsEscaping(key);
        if integer || escaping {
          return "", false;
        }
      }
    }
    r := "";
    for i := 0 to |path|
      invariant forall numeric: string -> string :: r == Printed(path[..i], numeric)
      invariant |r| == PlainLength(path[..i]) + (if i == 0 then 0 else i - 1)
    {
      ghost var was := r;
      var key := path[i];
      if i > 0 {
        r := r + ".";
      }
      var index := IsArrayIndexPath(key);
      r := r + if index then key[1..|key| - 1] else key;
      assert path[..i + 1][..i] == path[..i];
      forall numeric: string -> string {:trigger Printed(path[..i + 1], numeric)} ensures r == Printed(path[..i + 1], numeric) {
        assert was == Printed(path[..i], numeric);
        PrintedNext(path, i, numeric);
      }
    }
    assert path[..|path|] == path;
    ok := true;
  }

  method GetPath(path: seq<string>) returns (r: string)
    ensures r == Printed(path, LITERAL) && (path != [] ==> Decoded(r) == Meant(path))
  {
    var ok;
    r, ok := TryFast(path);
    if !ok {
      r := Build(path, LITERAL);
    }
    BothAreFaithful();
    if path != [] {
      RoundTrip(path, LITERAL);
    }
  }

  method MutationPath(path: seq<string>) returns (r: string)
    ensures r == Printed(path, COLON) && (path != [] ==> Decoded(r) == Meant(path))
  {
    var ok;
    r, ok := TryFast(path);
    if !ok {
      r := Build(path, COLON);
    }
    BothAreFaithful();
    if path != [] {
      RoundTrip(path, COLON);
    }
  }
}
