/** Splitting text at a separator byte and joining it again. */
module Splitting {

  /** strings.Split with a one-byte separator: always at least one part. */
  function Split(s: string, c: char): (parts: seq<string>)
    ensures parts != []
  {
    if s == "" then [""]
    else
      var rest := Split(s[1..], c);
      if s[0] == c then [""] + rest else [[s[0]] + rest[0]] + rest[1..]
  }

  function Join(parts: seq<string>, c: char): string
    requires parts != []
  {
    if |parts| == 1 then parts[0] else parts[0] + [c] + Join(parts[1..], c)
  }

  ghost predicate NoneHas(parts: seq<string>, c: char) {
    forall i :: 0 <= i < |parts| ==> c !in parts[i]
  }

  lemma {:induction false} SplitNoneHas(s: string, c: char)
    ensures NoneHas(Split(s, c), c)
  {
    if s != "" {
      SplitNoneHas(s[1..], c);
    }
  }

  lemma {:induction false} JoinSplit(s: string, c: char)
    ensures Join(Split(s, c), c) == s
  {
    if s != "" {
      JoinSplit(s[1..], c);
      var rest := Split(s[1..], c);
      assert s == [s[0]] + s[1..];
      if s[0] == c {
        assert ([""] + rest)[1..] == rest;
      } else {
        assert ([[s[0]] + rest[0]] + rest[1..])[1..] == rest[1..];
        if |rest| > 1 {
          assert [s[0]] + (rest[0] + [c] + Join(rest[1..], c)) == [s[0]] + rest[0] + [c] + Join(rest[1..], c);
        }
      }
    }
  }

  lemma SplitCons(x: char, s: string, c: char)
    requires x != c
    ensures Split([x] + s, c) == [[x] + Split(s, c)[0]] + Split(s, c)[1..]
  {
    assert ([x] + s)[1..] == s;
  }

  /** A prefix without the separator goes to the first part. */
  lemma {:induction false} SplitPrefix(p: string, s: string, c: char)
    requires c !in p
    ensures Split(p + s, c) == [p + Split(s, c)[0]] + Split(s, c)[1..]
  {
    hide Split;
    var parts := Split(s, c);
    if p == "" {
      assert p + s == s && p + parts[0] == parts[0];
      assert parts == [parts[0]] + parts[1..];
    } else {
      var q := p[1..];
      SplitPrefix(q, s, c);
      SplitCons(p[0], q + s, c);
      assert p + s == [p[0]] + (q + s);
      assert p + parts[0] == [p[0]] + (q + parts[0]);
    }
  }

  lemma SplitSeparator(s: string, c: char)
    ensures Split([c] + s, c) == [""] + Split(s, c)
    ensures Split("", c) == [""]
  {
    assert ([c] + s)[1..] == s;
  }

  lemma {:induction false} SplitJoin(parts: seq<string>, c: char)
    requires parts != [] && NoneHas(parts, c)
    ensures Split(Join(parts, c), c) == parts
  {
    hide Split;
    var p := parts[0];
    assert c !in p && p + "" == p;
    if |parts| == 1 {
      SplitPrefix(p, "", c);
      SplitSeparator("", c);
    } else {
      var rest := parts[1..];
      var tail := Join(rest, c);
      SplitJoin(rest, c);
      SplitSeparator(tail, c);
      SplitPrefix(p, [c] + tail, c);
      assert p + [c] + tail == p + ([c] + tail);
      assert ([""] + rest)[0] == "" && ([""] + rest)[1..] == rest;
      assert parts == [p] + rest;
    }
  }
}
