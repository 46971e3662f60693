/** The scan for unpaired surrogate escapes in a JSON text. */
module Surrogates {
  import opened Text

  // ---------------------------------------------------------------- hexadecimal quads

  predicate HexDigit(c: char) {
    Digit(c) || 'a' <= c <= 'f' || 'A' <= c <= 'F'
  }

  function HexDigitValue(c: char): nat
    requires HexDigit(c)
  {
    if Digit(c) then (c - '0') as nat
    else if 'a' <= c <= 'f' then (c - 'a') as nat + 10
    else (c - 'A') as nat + 10
  }

  predicate IsQuad(s: string) {
    |s| == 4 && HexDigit(s[0]) && HexDigit(s[1]) && HexDigit(s[2]) && HexDigit(s[3])
  }

  function QuadValue(s: string): nat
    requires IsQuad(s)
  {
    ((HexDigitValue(s[0]) * 16 + HexDigitValue(s[1])) * 16 + HexDigitValue(s[2])) * 16 + HexDigitValue(s[3])
  }

  /** hexQuad: four hexadecimal digits at `start`. */
  function HexQuad(s: string, start: nat): Option<nat> {
    if start + 4 > |s| || !IsQuad(s[start..start + 4]) then None else Some(QuadValue(s[start..start + 4]))
  }

  predicate High(value: nat) {
    0xD800 <= value <= 0xDBFF
  }

  predicate Low(value: nat) {
    0xDC00 <= value <= 0xDFFF
  }

  // ---------------------------------------------------------------- the scan as a function

  /** Accepts the text from a position outside string literals. */
  predicate Outside(s: string)
    decreases |s|
  {
    if s == "" then true else if s[0] == '"' then Inside(s[1..]) else Outside(s[1..])
  }

  /** Accepts the text from a position inside a string literal. A malformed escape drops back
      to the outside; the decoder refuses such a text later. */
  predicate Inside(s: string)
    decreases |s|
  {
    if s == "" then true
    else if s[0] == '"' then Outside(s[1..])
    else if s[0] != '\\' then Inside(s[1..])
    else if |s| == 1 then true
    else if s[1] != 'u' then Inside(s[2..])
    else if HexQuad(s, 2).None? then Outside(s[2..])
    else
      var first := HexQuad(s, 2).value;
      if High(first) then FollowedByLow(s[6..]) && Inside(s[12..])
      else !Low(first) && Inside(s[6..])
  }

  /** A complete escape for a low surrogate comes right here. */
  predicate FollowedByLow(s: string)
    ensures FollowedByLow(s) ==> |s| > 5
  {
    |s| > 5 && s[0] == '\\' && s[1] == 'u' && HexQuad(s, 2).Some? && Low(HexQuad(s, 2).value)
  }

  // ---------------------------------------------------------------- the scan in place

  lemma QuadAt(input: string, index: nat, start: nat)
    requires index + start <= |input|
    ensures HexQuad(input[index..], start) == HexQuad(input, index + start)
  {
    var s := input[index..];
    if start + 4 <= |s| {
      assert s[start..start + 4] == input[index + start..index + start + 4];
    }
  }

  method ValidateSurrogates(input: string) returns (ok: bool)
    ensures ok <==> Outside(input)
  {
    var index := 0;
    assert input[0..] == input;
    while index < |input|
      invariant 0 <= index <= |input|
      invariant Outside(input) <==> Outside(input[index..])
    {
      assert input[index..][1..] == input[index + 1..];
      if input[index] != '"' {
        index := index + 1;
        continue;
      }
      index := index + 1;
      var failed;
      index, failed := ScanLiteral(input, index);
      if failed {
        return false;
      }
    }
    return true;
  }

  /** The inner loop: from inside a literal to wherever scanning goes on outside. */
  method ScanLiteral(input: string, start: nat) returns (index: nat, failed: bool)
    requires start <= |input|
    ensures failed ==> !Inside(input[start..])
    ensures !failed ==> start <= index <= |input| && (Inside(input[start..]) <==> Outside(input[index..]))
  {
    index, failed := start, false;
    while index < |input| && input[index] != '"'
      invariant start <= index <= |input|
      invariant Inside(input[start..]) <==> Inside(input[index..])
      decreases |input| - index
    {
      hide Inside, Outside;
      ghost var s := input[index..];
      assert s[0] == input[index];
      if input[index] != '\\' {
        PlainByte(s);
        assert s[1..] == input[index + 1..];
        index := index + 1;
        continue;
      }
      index := index + 1;
      if index >= |input| {
        LoneBackslash(s);
        assert input[index..] == "";
        return;
      }
      assert s[1] == input[index] && s[2..] == input[index + 1..];
      if input[index] != 'u' {
        ShortEscape(s);
        index := index + 1;
        continue;
      }
      var next, leave;
      next, leave, failed := ScanUnicode(input, index - 1);
      if failed {
        return;
      }
      index := next;
      if leave {
        return;
      }
    }
    if index < |input| {
      assert input[index..][1..] == input[index + 1..];
      index := index + 1;
    }
  }

  lemma PlainByte(s: string)
    requires s != "" && s[0] != '"' && s[0] != '\\'
    ensures Inside(s) <==> Inside(s[1..])
  {
  }

  lemma LoneBackslash(s: string)
    requires |s| == 1 && s[0] == '\\'
    ensures Inside(s) && Outside("")
  {
  }

  lemma ShortEscape(s: string)
    requires |s| > 1 && s[0] == '\\' && s[1] != 'u'
    ensures Inside(s) <==> Inside(s[2..])
  {
  }

  /** An escape starting with backslash and `u` at `start`, and its partner if it needs one. */
  method ScanUnicode(input: string, start: nat) returns (index: nat, leave: bool, failed: bool)
    requires start + 1 < |input| && input[start] == '\\' && input[start + 1] == 'u'
    ensures failed ==> !Inside(input[start..])
    ensures !failed ==> start < index <= |input|
    ensures !failed && !leave ==> (Inside(input[start..]) <==> Inside(input[index..]))
    ensures !failed && leave ==> (Inside(input[start..]) <==> Outside(input[index..]))
  {
    hide HexQuad, High, Low, Outside;
    ghost var s := input[start..];
    assert s[0] == '\\' && s[1] == 'u' && s[2..] == input[start + 2..];
    index := start + 1;
    var first := ParseQuad(input, index + 1);
    QuadAt(input, start, 2);
    if first.None? {
      return index + 1, true, false;
    }
    QuadFits(input, index + 1);
    index := index + 5;
    ghost var t := input[index..];
    assert s[6..] == t;
    RangesAre(first.value);
    if first.value >= 0xd800 && first.value <= 0xdbff {
      if index + 5 >= |input| || input[index] != '\\' || input[index + 1] != 'u' {
        return index, false, true;
      }
      var second := ParseQuad(input, index + 2);
      QuadAt(input, index, 2);
      if second.Some? {
        RangesAre(second.value);
      }
      if second.None? || second.value < 0xdc00 || second.value > 0xdfff {
        return index, false, true;
      }
      assert s[12..] == input[index + 6..];
      index := index + 6;
    } else if first.value >= 0xdc00 && first.value <= 0xdfff {
      return index, false, true;
    }
    return index, false, false;
  }

  lemma RangesAre(value: nat)
    ensures High(value) <==> 0xd800 <= value <= 0xdbff
    ensures Low(value) <==> 0xdc00 <= value <= 0xdfff
  {
  }

  /** strconv.ParseUint of four bytes in base 16. */
  method ParseQuad(input: string, start: nat) returns (r: Option<nat>)
    ensures r == HexQuad(input, start)
  {
    if start + 4 > |input| {
      return None;
    }
    var text := input[start..start + 4];
    var values: seq<nat> := [];
    for i := 0 to 4
      invariant |values| == i
      invariant forall j :: 0 <= j < i ==> HexDigit(text[j]) && values[j] == HexDigitValue(text[j])
    {
      var c := text[i];
      if '0' <= c <= '9' {
        values := values + [(c - '0') as nat];
      } else if 'a' <= c <= 'f' {
        values := values + [(c - 'a') as nat + 10];
      } else if 'A' <= c <= 'F' {
        values := values + [(c - 'A') as nat + 10];
      } else {
        return None;
      }
    }
    return Some(4096 * values[0] + 256 * values[1] + 16 * values[2] + values[3]);
  }

  lemma QuadFits(input: string, start: nat)
    requires HexQuad(input, start).Some?
    ensures start + 4 <= |input|
  {
  }

  // ---------------------------------------------------------------- what the scan means

  /** What a string literal is made of. */
  datatype Unit = Plain(c: char) | Short(c: char) | Unicode(quad: string)

  predicate ValidUnit(u: Unit) {
    match u
    case Plain(c) => c != '"' && c != '\\'
    case Short(c) => c != 'u'
    case Unicode(quad) => IsQuad(quad)
  }

  function Show(u: Unit): string {
    match u
    case Plain(c) => [c]
    case Short(c) => ['\\', c]
    case Unicode(quad) => "\\u" + quad
  }

  function ShowAll(units: seq<Unit>): string {
    if units == [] then "" else Show(units[0]) + ShowAll(units[1..])
  }

  predicate IsHigh(u: Unit) {
    u.Unicode? && IsQuad(u.quad) && High(QuadValue(u.quad))
  }

  predicate IsLow(u: Unit) {
    u.Unicode? && IsQuad(u.quad) && Low(QuadValue(u.quad))
  }

  /** Every high surrogate is directly followed by a low one, every low one directly preceded
      by a high one. */
  ghost predicate Paired(units: seq<Unit>) {
    && (forall i :: 0 <= i < |units| && IsHigh(units[i]) ==> i + 1 < |units| && IsLow(units[i + 1]))
    && (forall i :: 0 <= i < |units| && IsLow(units[i]) ==> 0 < i && IsHigh(units[i - 1]))
  }

  datatype Segment = Gap(text: string) | Literal(units: seq<Unit>)

  ghost predicate ValidSegment(g: Segment) {
    match g
    case Gap(text) => '"' !in text
    case Literal(units) => forall i :: 0 <= i < |units| ==> ValidUnit(units[i])
  }

  function Render(segments: seq<Segment>): string {
    if segments == [] then "" else RenderOne(segments[0]) + Render(segments[1..])
  }

  function RenderOne(g: Segment): string {
    if g.Gap? then g.text else "\"" + ShowAll(g.units) + "\""
  }

  lemma HighIsNotLow(u: Unit)
    ensures !(IsHigh(u) && IsLow(u))
  {
  }

  /** A leading unit that is no surrogate makes no difference. */
  lemma PairedAfterOne(units: seq<Unit>)
    requires units != [] && !IsHigh(units[0]) && !IsLow(units[0])
    ensures Paired(units) <==> Paired(units[1..])
  {
    hide IsHigh, IsLow;
    var rest := units[1..];
    assert forall i :: 0 <= i < |rest| ==> rest[i] == units[i + 1];
    assert forall i :: 1 <= i < |units| ==> units[i] == rest[i - 1];
  }

  /** Nor does a leading pair. */
  lemma PairedAfterTwo(units: seq<Unit>)
    requires |units| > 1 && IsHigh(units[0]) && IsLow(units[1])
    ensures Paired(units) <==> Paired(units[2..])
  {
    HighIsNotLow(units[0]);
    HighIsNotLow(units[1]);
    hide IsHigh, IsLow;
    var rest := units[2..];
    assert forall i :: 0 <= i < |rest| ==> rest[i] == units[i + 2];
    assert forall i :: 2 <= i < |units| ==> units[i] == rest[i - 2];
  }

  /** Dropping a unit, or a pair, that is no unpaired surrogate. */
  lemma PairedStep(units: seq<Unit>)
    requires units != []
    ensures Paired(units) <==>
            if IsHigh(units[0]) then |units| > 1 && IsLow(units[1]) && Paired(units[2..])
            else !IsLow(units[0]) && Paired(units[1..])
  {
    if IsHigh(units[0]) {
      if |units| > 1 && IsLow(units[1]) {
        PairedAfterTwo(units);
        hide Paired, IsHigh, IsLow;
      } else {
        hide IsHigh, IsLow;
      }
    } else if !IsLow(units[0]) {
      PairedAfterOne(units);
      hide Paired, IsHigh, IsLow;
    } else {
      hide IsHigh, IsLow;
    }
  }

  lemma UnicodeAt(quad: string, rest: string)
    requires IsQuad(quad)
    ensures var s := "\\u" + quad + rest;
            HexQuad(s, 2) == Some(QuadValue(quad)) && s[6..] == rest && |s| == 6 + |rest|
  {
    var s := "\\u" + quad + rest;
    assert s[2..6] == quad;
  }

  /** One plain unit, short escape or escape that is no high surrogate. */
  lemma InsideOne(u: Unit, rest: string)
    requires ValidUnit(u) && !IsHigh(u)
    ensures Inside(Show(u) + rest) <==> !IsLow(u) && Inside(rest)
  {
    var s := Show(u) + rest;
    match u
    case Plain(c) => assert s[1..] == rest;
    case Short(c) => assert s[2..] == rest;
    case Unicode(quad) => UnicodeAt(quad, rest);
  }

  /** A high surrogate asks for a low one right behind it. */
  lemma InsideHigh(u: Unit, rest: string)
    requires IsHigh(u)
    ensures Inside(Show(u) + rest) <==> FollowedByLow(rest) && Inside(rest[6..])
  {
    var s := Show(u) + rest;
    UnicodeAt(u.quad, rest);
    if |rest| >= 6 {
      assert s[12..] == rest[6..];
    }
  }

  lemma LowFollows(u: Unit, rest: string)
    requires ValidUnit(u)
    ensures FollowedByLow(Show(u) + rest) <==> IsLow(u)
    ensures IsLow(u) ==> (Show(u) + rest)[6..] == rest
  {
    var s := Show(u) + rest;
    if u.Unicode? {
      UnicodeAt(u.quad, rest);
    }
  }

  lemma {:induction false} InsideUnits(units: seq<Unit>, rest: string)
    requires forall i :: 0 <= i < |units| ==> ValidUnit(units[i])
    ensures Inside(ShowAll(units) + ("\"" + rest)) <==> Paired(units) && Outside(rest)
    decreases |units|
  {
    hide Inside, Outside, IsHigh, IsLow, FollowedByLow, Paired, Show, ValidUnit;
    var tail := "\"" + rest;
    if units == [] {
      assert ShowAll(units) + tail == tail;
      ClosingQuote(rest);
    } else {
      PairedStep(units);
      ShowFirst(units, tail);
      var u := units[0];
      var after := ShowAll(units[1..]) + tail;
      if !IsHigh(u) {
        InsideOne(u, after);
        InsideUnits(units[1..], rest);
      } else {
        InsideHigh(u, after);
        if |units| > 1 {
          var v := units[1];
          var later := ShowAll(units[2..]) + tail;
          assert units[1..][0] == v && units[1..][1..] == units[2..];
          ShowFirst(units[1..], tail);
          LowFollows(v, later);
          InsideUnits(units[2..], rest);
        } else {
          QuoteIsNoLow(rest);
          assert units[1..] == [] && after == tail;
        }
      }
    }
  }

  lemma ShowFirst(units: seq<Unit>, tail: string)
    requires units != []
    ensures ShowAll(units) + tail == Show(units[0]) + (ShowAll(units[1..]) + tail)
  {
    hide Show;
  }

  lemma ClosingQuote(rest: string)
    ensures Inside("\"" + rest) <==> Outside(rest)
    ensures Paired([])
  {
    assert ("\"" + rest)[1..] == rest;
  }

  lemma QuoteIsNoLow(rest: string)
    ensures !FollowedByLow("\"" + rest)
  {
  }

  lemma {:induction false} OutsideGap(text: string, rest: string)
    requires '"' !in text
    ensures Outside(text + rest) <==> Outside(rest)
  {
    if text == "" {
      assert text + rest == rest;
    } else {
      assert (text + rest)[1..] == text[1..] + rest;
      OutsideGap(text[1..], rest);
    }
  }

  ghost predicate AllPaired(segments: seq<Segment>) {
    forall i :: 0 <= i < |segments| && segments[i].Literal? ==> Paired(segments[i].units)
  }

  /** A lexically well-formed text passes exactly when the surrogate escapes of every string
      literal are paired. */
  lemma {:induction false} ScanFindsUnpaired(segments: seq<Segment>)
    requires forall i :: 0 <= i < |segments| ==> ValidSegment(segments[i])
    ensures Outside(Render(segments)) <==> AllPaired(segments)
  {
    hide Inside, Outside, Paired, ShowAll, ValidUnit;
    if segments == [] {
      NothingOutside();
    } else {
      var g, rest := segments[0], segments[1..];
      assert forall i :: 0 <= i < |rest| ==> rest[i] == segments[i + 1];
      assert forall i :: 0 < i < |segments| ==> segments[i] == rest[i - 1];
      ScanFindsUnpaired(rest);
      assert ValidSegment(g);
      if g.Gap? {
        OutsideGap(g.text, Render(rest));
      } else {
        InsideUnits(g.units, Render(rest));
        OpeningQuote(ShowAll(g.units) + ("\"" + Render(rest)));
        assert Render(segments) == "\"" + (ShowAll(g.units) + ("\"" + Render(rest)));
      }
    }
  }

  lemma NothingOutside()
    ensures Outside("")
  {
  }

  lemma OpeningQuote(s: string)
    ensures Outside("\"" + s) <==> Inside(s)
  {
    assert ("\"" + s)[1..] == s;
  }
}
