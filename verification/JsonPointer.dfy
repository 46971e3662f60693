/** JSON Pointer: printing, parsing, the publication-time check, and resolution. */
module JsonPointer {
  import opened Text
  import opened Splitting
  import opened CanonicalJson

  // ---------------------------------------------------------------- printing

  /** strings.ReplaceAll of one byte. */
  function ReplaceAll(s: string, c: char, with: string): string {
    if s == "" then "" else (if s[0] == c then with else [s[0]]) + ReplaceAll(s[1..], c, with)
  }

  /** The printer replaces `~` first and `/` afterwards. */
  function Escape(token: string): string {
    ReplaceAll(ReplaceAll(token, '~', "~0"), '/', "~1")
  }

  function Escaped(c: char): string {
    if c == '~' then "~0" else if c == '/' then "~1" else [c]
  }

  lemma {:induction false} ReplaceAllAppend(a: string, b: string, c: char, with: string)
    ensures ReplaceAll(a + b, c, with) == ReplaceAll(a, c, with) + ReplaceAll(b, c, with)
  {
    if a == "" {
      assert a + b == b;
      assert "" + ReplaceAll(b, c, with) == ReplaceAll(b, c, with);
    } else {
      ReplaceAllAppend(a[1..], b, c, with);
      assert (a + b)[1..] == a[1..] + b;
      var head := if a[0] == c then with else [a[0]];
      var x, y := ReplaceAll(a[1..], c, with), ReplaceAll(b, c, with);
      assert head + (x + y) == head + x + y;
    }
  }

  /** Two passes do what one pass byte by byte would. */
  lemma EscapeFirst(token: string)
    requires token != ""
    ensures Escape(token) == Escaped(token[0]) + Escape(token[1..])
  {
    var c := token[0];
    var head := if c == '~' then "~0" else [c];
    var rest := ReplaceAll(token[1..], '~', "~0");
    ReplaceAllAppend(head, rest, '/', "~1");
    if c == '~' {
      assert "~0"[1..] == "0" && "0"[1..] == "";
      assert ReplaceAll("~0", '/', "~1") == ['~'] + (['0'] + "") == "~0";
    } else {
      assert [c][1..] == "";
      assert ReplaceAll([c], '/', "~1") == Escaped(c) + "" == Escaped(c);
    }
  }

  function Print(tokens: seq<string>): string {
    if tokens == [] then "" else Print(tokens[..|tokens| - 1]) + "/" + Escape(tokens[|tokens| - 1])
  }

  method Pointer(tokens: seq<string>) returns (result: string)
    ensures result == Print(tokens)
  {
    result := "";
    for i := 0 to |tokens|
      invariant result == Print(tokens[..i])
    {
      assert tokens[..i + 1][..i] == tokens[..i];
      result := result + "/" + Escape(tokens[i]);
    }
    assert tokens[..|tokens|] == tokens;
  }

  // ---------------------------------------------------------------- parsing

  predicate EscapeDigit(c: char) {
    c == '0' || c == '1'
  }

  function Unescape(part: string): Option<string> {
    if part == "" then Some("")
    else if part[0] != '~' then Prepend([part[0]], Unescape(part[1..]))
    else if |part| >= 2 && EscapeDigit(part[1])
    then Prepend(if part[1] == '0' then "~" else "/", Unescape(part[2..]))
    else None
  }

  function Prepend(a: string, b: Option<string>): Option<string> {
    if b.None? then None else Some(a + b.value)
  }

  lemma PrependTwice(a: string, b: string, c: Option<string>)
    ensures Prepend(a, Prepend(b, c)) == Prepend(a + b, c)
    ensures Prepend("", c) == c
  {
    if c.Some? {
      assert a + (b + c.value) == a + b + c.value && "" + c.value == c.value;
    }
  }

  function UnescapeAll(parts: seq<string>): Option<seq<string>> {
    if parts == [] then Some([])
    else
      var front := UnescapeAll(parts[..|parts| - 1]);
      var last := Unescape(parts[|parts| - 1]);
      if front.None? || last.None? then None else Some(front.value + [last.value])
  }

  function Parse(pointer: string): Option<seq<string>> {
    if pointer == "" || pointer[0] != '/' then None else UnescapeAll(Split(pointer[1..], '/'))
  }

  method UnescapePart(part: string) returns (r: Option<string>)
    ensures r == Unescape(part)
  {
    var output := "";
    var position := 0;
    assert part[0..] == part;
    PrependTwice("", "", Unescape(part));
    while position < |part|
      invariant 0 <= position <= |part|
      invariant Unescape(part) == Prepend(output, Unescape(part[position..]))
    {
      ghost var rest := part[position..];
      assert rest[0] == part[position] && rest[1..] == part[position + 1..];
      if part[position] != '~' {
        PrependTwice(output, [part[position]], Unescape(rest[1..]));
        output := output + [part[position]];
        position := position + 1;
        continue;
      }
      if position + 1 >= |part| || !EscapeDigit(part[position + 1]) {
        return None;
      }
      assert rest[1] == part[position + 1] && rest[2..] == part[position + 2..];
      PrependTwice(output, if rest[1] == '0' then "~" else "/", Unescape(rest[2..]));
      position := position + 1;
      if part[position] == '0' {
        output := output + "~";
      } else {
        output := output + "/";
      }
      position := position + 1;
    }
    assert part[position..] == "" && output + "" == output;
    return Some(output);
  }

  /** Unescapes the parts in place, stopping at the first bad escape. */
  method ParsePointer(pointer: string) returns (r: Option<seq<string>>)
    ensures r == Parse(pointer)
  {
    if pointer == "" || pointer[0] != '/' {
      return None;
    }
    var split := Split(pointer[1..], '/');
    var parts := split;
    for index := 0 to |split|
      invariant |parts| == |split| && parts[index..] == split[index..]
      invariant UnescapeAll(split[..index]) == Some(parts[..index])
    {
      assert parts[index] == parts[index..][0] == split[index..][0];
      var output := UnescapePart(parts[index]);
      assert split[..index + 1][..index] == split[..index];
      if output.None? {
        NoneAfter(split, index + 1);
        return None;
      }
      parts := parts[index := output.value];
      assert parts[..index + 1] == parts[..index] + [output.value];
    }
    assert split[..|split|] == split && parts[..|split|] == parts;
    return Some(parts);
  }

  lemma {:induction false} NoneAfter(parts: seq<string>, n: nat)
    requires n <= |parts| && UnescapeAll(parts[..n]).None?
    ensures UnescapeAll(parts).None?
    decreases |parts| - n
  {
    if n == |parts| {
      assert parts[..n] == parts;
    } else {
      assert parts[..n + 1][..n] == parts[..n];
      NoneAfter(parts, n + 1);
    }
  }

  // ---------------------------------------------------------------- the publication-time check

  /** Every tilde is followed by 0 or 1. */
  predicate EscapesOk(s: string) {
    forall i :: 0 <= i < |s| && s[i] == '~' ==> i + 1 < |s| && EscapeDigit(s[i + 1])
  }

  method ValidJSONPointer(pointer: string) returns (ok: bool)
    ensures ok <==> Parse(pointer).Some?
  {
    CheckIsParse(pointer);
    if pointer == "" || pointer[0] != '/' {
      return false;
    }
    var position := 0;
    while position < |pointer|
      invariant 0 <= position <= |pointer|
      invariant forall i :: 0 <= i < position && pointer[i] == '~' ==>
                  i + 1 < |pointer| && EscapeDigit(pointer[i + 1])
    {
      if pointer[position] == '~' {
        if position + 1 >= |pointer| || !EscapeDigit(pointer[position + 1]) {
          return false;
        }
        position := position + 1;
      }
      position := position + 1;
    }
    return true;
  }

  predicate HeadOk(s: string)
    requires s != ""
  {
    s[0] == '~' ==> |s| > 1 && EscapeDigit(s[1])
  }

  lemma EscapesOkFirst(s: string)
    requires s != ""
    ensures EscapesOk(s) <==> HeadOk(s) && EscapesOk(s[1..])
  {
    var t := s[1..];
    assert forall i :: 0 <= i < |t| ==> t[i] == s[i + 1];
    assert forall i :: 0 < i < |s| ==> s[i] == t[i - 1];
  }

  lemma {:induction false} UnescapeIff(s: string)
    ensures Unescape(s).Some? <==> EscapesOk(s)
  {
    if s != "" {
      EscapesOkFirst(s);
      if s[0] != '~' {
        UnescapeIff(s[1..]);
      } else if |s| >= 2 && EscapeDigit(s[1]) {
        EscapesOkFirst(s[1..]);
        assert s[1..][1..] == s[2..];
        UnescapeIff(s[2..]);
      }
    }
  }

  ghost predicate AllEscapesOk(parts: seq<string>) {
    forall i :: 0 <= i < |parts| ==> EscapesOk(parts[i])
  }

  lemma {:induction false} UnescapeAllIff(parts: seq<string>)
    ensures UnescapeAll(parts).Some? <==> AllEscapesOk(parts)
  {
    if parts != [] {
      UnescapeAllIff(parts[..|parts| - 1]);
      UnescapeIff(parts[|parts| - 1]);
      hide EscapesOk, Unescape;
      assert forall i :: 0 <= i < |parts| - 1 ==> parts[..|parts| - 1][i] == parts[i];
    }
  }

  /** A tilde cannot reach its digit across a slash, so checking parts is checking the whole. */
  lemma {:induction false} SplitEscapes(s: string)
    ensures EscapesOk(s) <==> AllEscapesOk(Split(s, '/'))
  {
    if s != "" {
      SplitEscapes(s[1..]);
      EscapesOkFirst(s);
      var rest := Split(s[1..], '/');
      var all := Split(s, '/');
      if s[0] == '/' {
        hide EscapesOk;
        EmptyOk();
        AllOkFirst(all);
        assert all[0] == "" && all[1..] == rest;
      } else {
        assert all[0] == [s[0]] + rest[0] && all[1..] == rest[1..];
        EscapesOkFirst(all[0]);
        assert all[0][1..] == rest[0];
        if |s| > 1 {
          assert s[1] == '/' ==> rest[0] == "";
          assert s[1] != '/' ==> rest[0] != "" && rest[0][0] == s[1];
        }
        hide EscapesOk;
        AllOkFirst(all);
        AllOkFirst(rest);
      }
    }
  }

  lemma EmptyOk()
    ensures EscapesOk("")
  {
  }

  lemma AllOkFirst(parts: seq<string>)
    requires parts != []
    ensures AllEscapesOk(parts) <==> EscapesOk(parts[0]) && AllEscapesOk(parts[1..])
  {
    hide EscapesOk;
    var rest := parts[1..];
    assert forall i :: 0 < i < |parts| ==> parts[i] == rest[i - 1];
    assert forall i :: 0 <= i < |rest| ==> rest[i] == parts[i + 1];
  }

  /** The publication-time check accepts exactly what the parser accepts. */
  lemma CheckIsParse(pointer: string)
    ensures Parse(pointer).Some? <==> pointer != "" && pointer[0] == '/' && EscapesOk(pointer)
  {
    if pointer != "" {
      SplitEscapes(pointer[1..]);
      UnescapeAllIff(Split(pointer[1..], '/'));
      EscapesOkFirst(pointer);
    }
  }

  // ---------------------------------------------------------------- round trips

  lemma {:induction false} EscapeHasNoSlash(token: string)
    ensures '/' !in Escape(token)
  {
    if token != "" {
      EscapeFirst(token);
      EscapeHasNoSlash(token[1..]);
      hide Escape;
    }
  }

  lemma {:induction false} UnescapeEscape(token: string)
    ensures Unescape(Escape(token)) == Some(token)
  {
    if token != "" {
      EscapeFirst(token);
      UnescapeEscape(token[1..]);
      hide Escape;
      var head, rest := Escaped(token[0]), Escape(token[1..]);
      assert (head + rest)[|head|..] == rest;
      assert token == [token[0]] + token[1..];
    }
  }

  lemma {:induction false} EscapeUnescape(part: string)
    requires '/' !in part && Unescape(part).Some?
    ensures Escape(Unescape(part).value) == part
  {
    if part != "" {
      var n := if part[0] == '~' then 2 else 1;
      EscapeUnescape(part[n..]);
      var token := Unescape(part).value;
      EscapeFirst(token);
      hide Escape;
      assert token[1..] == Unescape(part[n..]).value;
      assert part == part[..n] + part[n..];
      assert Escaped(token[0]) == part[..n];
    }
  }

  function EscapeAll(tokens: seq<string>): seq<string> {
    seq(|tokens|, i requires 0 <= i < |tokens| => Escape(tokens[i]))
  }

  lemma {:induction false} JoinAppend(parts: seq<string>, last: string, c: char)
    requires parts != []
    ensures Join(parts + [last], c) == Join(parts, c) + [c] + last
  {
    var all := parts + [last];
    if |parts| == 1 {
      assert all[1..] == [last];
    } else {
      JoinAppend(parts[1..], last, c);
      assert all[1..] == parts[1..] + [last];
      assert parts[0] + [c] + (Join(parts[1..], c) + [c] + last) == parts[0] + [c] + Join(parts[1..], c) + [c] + last;
    }
  }

  lemma {:induction false} PrintIsJoin(tokens: seq<string>)
    requires tokens != []
    ensures Print(tokens) == "/" + Join(EscapeAll(tokens), '/')
  {
    hide Escape;
    var n := |tokens| - 1;
    var front := tokens[..n];
    if n == 0 {
      assert Print(front) == "" && EscapeAll(tokens) == [Escape(tokens[0])];
    } else {
      PrintIsJoin(front);
      assert EscapeAll(tokens) == EscapeAll(front) + [Escape(tokens[n])];
      JoinAppend(EscapeAll(front), Escape(tokens[n]), '/');
      assert "/" + Join(EscapeAll(front), '/') + "/" + Escape(tokens[n])
          == "/" + (Join(EscapeAll(front), '/') + "/" + Escape(tokens[n]));
    }
  }

  lemma {:induction false} UnescapeAllEscapeAll(tokens: seq<string>)
    ensures UnescapeAll(EscapeAll(tokens)) == Some(tokens)
  {
    if tokens != [] {
      var n := |tokens| - 1;
      UnescapeAllEscapeAll(tokens[..n]);
      UnescapeEscape(tokens[n]);
      hide Escape;
      assert EscapeAll(tokens)[..n] == EscapeAll(tokens[..n]);
      assert tokens == tokens[..n] + [tokens[n]];
    }
  }

  lemma {:induction false} EscapeAllUnescapeAll(parts: seq<string>)
    requires NoneHas(parts, '/') && UnescapeAll(parts).Some?
    ensures EscapeAll(UnescapeAll(parts).value) == parts
  {
    if parts != [] {
      var n := |parts| - 1;
      EscapeAllUnescapeAll(parts[..n]);
      EscapeUnescape(parts[n]);
      hide Escape, Unescape;
      var front := UnescapeAll(parts[..n]).value;
      assert EscapeAll(front + [Unescape(parts[n]).value]) == EscapeAll(front) + [parts[n]];
    }
  }

  lemma EscapedPartsHaveNoSlash(tokens: seq<string>)
    ensures NoneHas(EscapeAll(tokens), '/')
  {
    hide Escape;
    var parts := EscapeAll(tokens);
    forall i | 0 <= i < |parts| ensures '/' !in parts[i] {
      EscapeHasNoSlash(tokens[i]);
    }
  }

  /** What is printed parses back. */
  lemma ParsePrint(tokens: seq<string>)
    requires tokens != []
    ensures Parse(Print(tokens)) == Some(tokens)
  {
    var parts := EscapeAll(tokens);
    assert |parts| == |tokens|;
    hide UnescapeAll, EscapeAll, Split, Join, Print, NoneHas;
    PrintIsJoin(tokens);
    EscapedPartsHaveNoSlash(tokens);
    SplitJoin(parts, '/');
    UnescapeAllEscapeAll(tokens);
    assert ("/" + Join(parts, '/'))[1..] == Join(parts, '/');
  }

  /** What parses prints back, byte for byte. */
  lemma PrintParse(pointer: string)
    requires Parse(pointer).Some?
    ensures Parse(pointer).value != [] && Print(Parse(pointer).value) == pointer
  {
    var parts := Split(pointer[1..], '/');
    SplitNoneHas(pointer[1..], '/');
    EscapeAllUnescapeAll(parts);
    JoinSplit(pointer[1..], '/');
    hide UnescapeAll, Split;
    var tokens := Parse(pointer).value;
    assert |EscapeAll(tokens)| == |tokens|;
    PrintIsJoin(tokens);
    assert pointer == "/" + pointer[1..];
  }

  // ---------------------------------------------------------------- resolution

  /** strconv.Atoi without its range limit: no slice is long enough for the difference to show. */
  function Atoi(s: string): Option<int> {
    var signed := s != "" && (s[0] == '+' || s[0] == '-');
    var digits := if signed then s[1..] else s;
    if digits == "" || !Digits(digits) then None
    else
      var n: int := ToNat(digits);
      Some(if signed && s[0] == '-' then -n else n)
  }

  /** The element a token selects from an array of `length` elements. */
  function IndexOf(token: string, length: nat): Option<nat> {
    if token == "-" || (|token| > 1 && token[0] == '0') then None
    else
      var index := Atoi(token);
      if index.None? || index.value < 0 || index.value >= length then None else Some(index.value)
  }

  function Child(v: Value, token: string): Option<Value> {
    match v
    case Object(members) => if Name(token) in members then Some(members[Name(token)]) else None
    case Array(values) => var i := IndexOf(token, |values|); if i.None? then None else Some(values[i.value])
    case _ => None
  }

  function Resolved(v: Value, tokens: seq<string>): Option<Value> {
    if tokens == [] then Some(v)
    else
      var child := Child(v, tokens[0]);
      if child.None? then None else Resolved(child.value, tokens[1..])
  }

  method Resolve(value: Value, tokens: seq<string>) returns (r: Option<Value>)
    ensures r == Resolved(value, tokens)
  {
    var current := value;
    assert tokens[0..] == tokens;
    for i := 0 to |tokens|
      invariant Resolved(value, tokens) == Resolved(current, tokens[i..])
    {
      assert tokens[i..][1..] == tokens[i + 1..];
      var token := tokens[i];
      match current {
        case Object(members) =>
          if Name(token) !in members {
            return None;
          }
          current := members[Name(token)];
        case Array(values) =>
          if token == "-" || (|token| > 1 && token[0] == '0') {
            return None;
          }
          var index := Atoi(token);
          if index.None? || index.value < 0 || index.value >= |values| {
            return None;
          }
          current := values[index.value];
        case _ =>
          return None;
      }
    }
    return Some(current);
  }

  /** Section 4 of RFC 6901: digits without a leading zero. */
  function StandardIndex(token: string, length: nat): Option<nat> {
    if Canonical(token) && ToNat(token) < length then Some(ToNat(token)) else None
  }

  /** A sign before digits; a minus only before zeros, since negative indices are refused. */
  predicate SignedNumeral(token: string) {
    && |token| > 1 && Digits(token[1..])
    && (token[0] == '+' || (token[0] == '-' && ToNat(token[1..]) == 0))
  }

  /** Array indices follow the standard, for arrays of every length, exactly when the token is
      not a signed numeral. */
  lemma IndexIsStandardIff(token: string)
    ensures (forall length: nat :: IndexOf(token, length) == StandardIndex(token, length)) <==> !SignedNumeral(token)
  {
    if SignedNumeral(token) {
      var length := ToNat(token[1..]) + 1;
      assert IndexOf(token, length) == Some(ToNat(token[1..]));
      assert StandardIndex(token, length).None? by { assert !Digit(token[0]); }
    } else {
      forall length: nat ensures IndexOf(token, length) == StandardIndex(token, length) {
        if token != "" && (token[0] == '+' || token[0] == '-') {
          assert !Digit(token[0]);
        }
      }
    }
  }

  datatype PathStep = Key(key: string) | Index(index: nat)

  function Follow(v: Value, path: seq<PathStep>): Option<Value> {
    if path == [] then Some(v)
    else
      match path[0]
      case Key(key) =>
        if v.Object? && Name(key) in v.members then Follow(v.members[Name(key)], path[1..]) else None
      case Index(index) =>
        if v.Array? && index < |v.values| then Follow(v.values[index], path[1..]) else None
  }

  function TokensOf(path: seq<PathStep>): seq<string> {
    seq(|path|, i requires 0 <= i < |path| => if path[i].Key? then path[i].key else Decimal(path[i].index))
  }

  lemma CanonicalIndex(i: nat, length: nat)
    requires i < length
    ensures IndexOf(Decimal(i), length) == Some(i)
  {
    DecimalRoundTrip(i);
    var s := Decimal(i);
    assert Digit(s[0]);
  }

  lemma {:induction false} ResolvesPath(v: Value, path: seq<PathStep>)
    requires Follow(v, path).Some?
    ensures Resolved(v, TokensOf(path)) == Follow(v, path)
    decreases |path|
  {
    hide IndexOf, Decimal, Atoi;
    if path != [] {
      assert TokensOf(path)[1..] == TokensOf(path[1..]);
      match path[0]
      case Key(key) => ResolvesPath(v.members[Name(key)], path[1..]);
      case Index(index) =>
        CanonicalIndex(index, |v.values|);
        ResolvesPath(v.values[index], path[1..]);
    }
  }

  /** Printing the location of any subtree, parsing it and resolving it returns the subtree. */
  lemma LocationsResolve(v: Value, path: seq<PathStep>)
    requires path != [] && Follow(v, path).Some?
    ensures var tokens := Parse(Print(TokensOf(path)));
            tokens.Some? && Resolved(v, tokens.value) == Follow(v, path)
  {
    hide Parse, Print;
    ParsePrint(TokensOf(path));
    ResolvesPath(v, path);
  }
}
