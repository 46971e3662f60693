/** What the token-stream parser accepts: it is the inverse of writing a document's tokens. */
module JsonDocuments {
  import opened Text
  import opened CanonicalJson

  /** A JSON text as written: members in order, numbers spelled out, repeated keys possible. */
  datatype Doc = NullDoc | BoolDoc(truth: bool) | StringDoc(text: Name) | NumberDoc(text: Name)
               | ArrayDoc(items: seq<Doc>) | ObjectDoc(members: seq<Member>)

  datatype Member = Member(key: Name, value: Doc)

  // ---------------------------------------------------------------- tokens of a document

  function Tokens(d: Doc): (t: seq<Token>)
    ensures t != [] && !t[0].Closes()
  {
    match d
    case NullDoc => [NullToken]
    case BoolDoc(b) => [BoolToken(b)]
    case StringDoc(text) => [StringToken(text)]
    case NumberDoc(text) => [NumberToken(text)]
    case ArrayDoc(items) => [OpenArray] + ItemTokens(items) + [CloseArray]
    case ObjectDoc(members) => [OpenObject] + MemberTokens(members) + [CloseObject]
  }

  function ItemTokens(items: seq<Doc>): seq<Token> {
    if items == [] then [] else Tokens(items[0]) + ItemTokens(items[1..])
  }

  function OneTokens(m: Member): seq<Token> {
    [StringToken(m.key)] + Tokens(m.value)
  }

  function MemberTokens(ms: seq<Member>): seq<Token> {
    if ms == [] then [] else OneTokens(ms[0]) + MemberTokens(ms[1..])
  }

  // ---------------------------------------------------------------- meaning of a document

  function Denote(src: Source, d: Doc): Value
    decreases d
  {
    match d
    case NullDoc => Null
    case BoolDoc(b) => Bool(b)
    case StringDoc(text) => String(text)
    case NumberDoc(text) => if src.accept(text).Some? then Number(src.accept(text).value) else Null
    case ArrayDoc(items) => Array(DenoteAll(src, items))
    case ObjectDoc(members) => Object(Into(src, map[], members))
  }

  function DenoteAll(src: Source, items: seq<Doc>): seq<Value>
    decreases items
  {
    if items == [] then [] else [Denote(src, items[0])] + DenoteAll(src, items[1..])
  }

  function Into(src: Source, fields: map<Name, Value>, ms: seq<Member>): map<Name, Value>
    decreases ms
  {
    if ms == [] then fields else Into(src, fields[ms[0].key := DenoteOne(src, ms[0])], ms[1..])
  }

  function DenoteOne(src: Source, m: Member): Value
    decreases m
  {
    Denote(src, m.value)
  }

  // ---------------------------------------------------------------- acceptable documents

  ghost predicate Distinct(ms: seq<Member>) {
    forall i, j :: 0 <= i < j < |ms| ==> ms[i].key != ms[j].key
  }

  /** Depth, string, key and number limits hold and no object repeats a key. */
  ghost predicate Fits(src: Source, d: Doc, depth: nat)
    decreases d
  {
    && depth <= src.limits.maxDepth
    && match d
       case NullDoc => true
       case BoolDoc(_) => true
       case StringDoc(text) => |text.text| <= src.limits.maxString
       case NumberDoc(text) => |text.text| <= src.limits.maxNumber && src.accept(text).Some?
       case ArrayDoc(items) => forall i :: 0 <= i < |items| ==> Fits(src, items[i], depth + 1)
       case ObjectDoc(ms) =>
         && Distinct(ms)
         && forall i :: 0 <= i < |ms| ==>
              |ms[i].key.text| <= src.limits.maxString && Fits(src, ms[i].value, depth + 1)
  }

  /** Object members anywhere in the document. */
  function Count(d: Doc): nat {
    match d
    case ArrayDoc(items) => CountItems(items)
    case ObjectDoc(ms) => CountMembers(ms)
    case _ => 0
  }

  function CountItems(items: seq<Doc>): nat {
    if items == [] then 0 else Count(items[0]) + CountItems(items[1..])
  }

  function CountMembers(ms: seq<Member>): nat {
    if ms == [] then 0 else CountOne(ms[0]) + CountMembers(ms[1..])
  }

  function CountOne(m: Member): nat {
    1 + Count(m.value)
  }

  // ---------------------------------------------------------------- reading at a position

  predicate At(tokens: seq<Token>, pos: nat, part: seq<Token>) {
    pos + |part| <= |tokens| && tokens[pos..pos + |part|] == part
  }

  lemma AtSplit(tokens: seq<Token>, pos: nat, a: seq<Token>, b: seq<Token>)
    requires At(tokens, pos, a + b)
    ensures At(tokens, pos, a) && At(tokens, pos + |a|, b)
  {
    assert tokens[pos..pos + |a|] == tokens[pos..pos + |a + b|][..|a|];
    assert tokens[pos + |a|..pos + |a| + |b|] == tokens[pos..pos + |a + b|][|a|..];
  }

  lemma AtJoin(tokens: seq<Token>, pos: nat, a: seq<Token>, b: seq<Token>)
    requires At(tokens, pos, a) && At(tokens, pos + |a|, b)
    ensures At(tokens, pos, a + b)
  {
    assert tokens[pos..pos + |a + b|] == tokens[pos..pos + |a|] + tokens[pos + |a|..pos + |a| + |b|];
  }

  lemma AtBoth(tokens: seq<Token>, pos: nat, a: seq<Token>, b: seq<Token>)
    ensures At(tokens, pos, a + b) <==> At(tokens, pos, a) && At(tokens, pos + |a|, b)
  {
    if At(tokens, pos, a + b) {
      AtSplit(tokens, pos, a, b);
    } else if At(tokens, pos, a) && At(tokens, pos + |a|, b) {
      AtJoin(tokens, pos, a, b);
    }
  }

  lemma AtFirst(tokens: seq<Token>, pos: nat, part: seq<Token>)
    requires part != [] && At(tokens, pos, part)
    ensures pos < |tokens| && tokens[pos] == part[0]
  {
    assert tokens[pos] == tokens[pos..pos + |part|][0];
  }

  lemma AtOne(tokens: seq<Token>, pos: nat, t: Token)
    ensures At(tokens, pos, [t]) <==> pos < |tokens| && tokens[pos] == t
  {
    if At(tokens, pos, [t]) {
      AtFirst(tokens, pos, [t]);
    }
  }

  /** An array's tokens are an opening bracket and the rest. */
  lemma AtArray(tokens: seq<Token>, pos: nat, items: seq<Doc>)
    ensures At(tokens, pos, Tokens(ArrayDoc(items))) <==>
            pos < |tokens| && tokens[pos] == OpenArray && At(tokens, pos + 1, ItemTokens(items) + [CloseArray])
    ensures |Tokens(ArrayDoc(items))| == |ItemTokens(items)| + 2
  {
    assert Tokens(ArrayDoc(items)) == [OpenArray] + (ItemTokens(items) + [CloseArray]);
    hide At;
    AtBoth(tokens, pos, [OpenArray], ItemTokens(items) + [CloseArray]);
    AtOne(tokens, pos, OpenArray);
  }

  lemma AtObject(tokens: seq<Token>, pos: nat, ms: seq<Member>)
    ensures At(tokens, pos, Tokens(ObjectDoc(ms))) <==>
            pos < |tokens| && tokens[pos] == OpenObject && At(tokens, pos + 1, MemberTokens(ms) + [CloseObject])
    ensures |Tokens(ObjectDoc(ms))| == |MemberTokens(ms)| + 2
  {
    assert Tokens(ObjectDoc(ms)) == [OpenObject] + (MemberTokens(ms) + [CloseObject]);
    hide At;
    AtBoth(tokens, pos, [OpenObject], MemberTokens(ms) + [CloseObject]);
    AtOne(tokens, pos, OpenObject);
  }

  lemma AtItems(tokens: seq<Token>, pos: nat, first: Doc, rest: seq<Doc>)
    ensures At(tokens, pos, ItemTokens([first] + rest) + [CloseArray]) <==>
            At(tokens, pos, Tokens(first)) && At(tokens, pos + |Tokens(first)|, ItemTokens(rest) + [CloseArray])
    ensures |ItemTokens([first] + rest)| == |Tokens(first)| + |ItemTokens(rest)|
  {
    assert ([first] + rest)[1..] == rest;
    hide At, Tokens;
    assert ItemTokens([first] + rest) + [CloseArray] == Tokens(first) + (ItemTokens(rest) + [CloseArray]);
    AtBoth(tokens, pos, Tokens(first), ItemTokens(rest) + [CloseArray]);
  }

  lemma AtMembers(tokens: seq<Token>, pos: nat, first: Member, rest: seq<Member>)
    ensures At(tokens, pos, MemberTokens([first] + rest) + [CloseObject]) <==>
            && pos < |tokens| && tokens[pos] == StringToken(first.key) && At(tokens, pos + 1, Tokens(first.value))
            && At(tokens, pos + 1 + |Tokens(first.value)|, MemberTokens(rest) + [CloseObject])
    ensures |MemberTokens([first] + rest)| == 1 + |Tokens(first.value)| + |MemberTokens(rest)|
  {
    assert ([first] + rest)[1..] == rest;
    hide At, Tokens;
    var key := [StringToken(first.key)];
    var tail := MemberTokens(rest) + [CloseObject];
    assert MemberTokens([first] + rest) + [CloseObject] == key + (Tokens(first.value) + tail);
    AtBoth(tokens, pos, key, Tokens(first.value) + tail);
    AtBoth(tokens, pos + 1, Tokens(first.value), tail);
    AtOne(tokens, pos, StringToken(first.key));
  }

  // ---------------------------------------------------------------- a document's tokens parse to it

  /** On the tokens of a document the parser succeeds exactly when the document fits and its
      members do not exceed what is left, and then returns its meaning and stops right after it. */
  lemma {:induction false} ParsesDocument(src: Source, s: State, depth: nat, d: Doc)
    requires At(src.tokens, s.pos, Tokens(d)) && s.members <= src.limits.maxMembers
    ensures var r := ParseValue(src, s, depth);
            && (r.Ok? <==> Fits(src, d, depth) && s.members + Count(d) <= src.limits.maxMembers)
            && (r.Ok? ==> r == Ok(Denote(src, d), State(s.pos + |Tokens(d)|, s.members + Count(d))))
    decreases d
  {
    AtFirst(src.tokens, s.pos, Tokens(d));
    match d
    case ArrayDoc(items) =>
      AtArray(src.tokens, s.pos, items);
      hide At, Tokens, ItemTokens;
      if depth <= src.limits.maxDepth {
        ParsesItems(src, State(s.pos + 1, s.members), depth, items, []);
        assert [] + DenoteAll(src, items) == DenoteAll(src, items);
      }
    case ObjectDoc(ms) =>
      AtObject(src.tokens, s.pos, ms);
      hide At, Tokens, MemberTokens;
      if depth <= src.limits.maxDepth {
        ParsesMembers(src, State(s.pos + 1, s.members), depth, ms, map[]);
      }
    case _ =>
  }

  ghost predicate AllFit(src: Source, items: seq<Doc>, depth: nat) {
    forall i :: 0 <= i < |items| ==> Fits(src, items[i], depth)
  }

  lemma AllFitFirst(src: Source, items: seq<Doc>, depth: nat)
    requires items != []
    ensures AllFit(src, items, depth) <==> Fits(src, items[0], depth) && AllFit(src, items[1..], depth)
  {
    if Fits(src, items[0], depth) && AllFit(src, items[1..], depth) {
      forall i | 0 <= i < |items| ensures Fits(src, items[i], depth) {
        assert i > 0 ==> items[i] == items[1..][i - 1];
      }
    }
  }

  lemma {:induction false} ParsesItems(src: Source, s: State, depth: nat, items: seq<Doc>, values: seq<Value>)
    requires At(src.tokens, s.pos, ItemTokens(items) + [CloseArray]) && s.members <= src.limits.maxMembers
    ensures var r := ParseItems(src, s, depth, values);
            && (r.Ok? <==> AllFit(src, items, depth + 1) && s.members + CountItems(items) <= src.limits.maxMembers)
            && (r.Ok? ==> r == Ok(Array(values + DenoteAll(src, items)),
                                  State(s.pos + |ItemTokens(items)| + 1, s.members + CountItems(items))))
    decreases items
  {
    hide At, Tokens, ItemTokens, Fits, AllFit, ParseValue, ParseItems, DenoteAll, CountItems;
    if items == [] {
      ParsesNoItems(src, s, depth, values);
    } else {
      var first, rest := items[0], items[1..];
      assert items == [first] + rest;
      AtItems(src.tokens, s.pos, first, rest);
      ItemsGoOn(src, s, depth, first, values);
      AllFitFirst(src, items, depth + 1);
      FirstOfItems(src, items);
      ParsesDocument(src, s, depth + 1, first);
      var item := ParseValue(src, s, depth + 1);
      if item.Ok? {
        ParsesItems(src, item.state, depth, rest, values + [item.value]);
        assert values + [item.value] + DenoteAll(src, rest) == values + DenoteAll(src, items);
      }
    }
  }

  lemma ParsesNoItems(src: Source, s: State, depth: nat, values: seq<Value>)
    requires At(src.tokens, s.pos, ItemTokens([]) + [CloseArray])
    ensures AllFit(src, [], depth + 1) && CountItems([]) == 0 && |ItemTokens([])| == 0 && values + DenoteAll(src, []) == values
    ensures ParseItems(src, s, depth, values) == Ok(Array(values), s.(pos := s.pos + 1))
  {
    assert [] + [CloseArray] == [CloseArray];
    AtOne(src.tokens, s.pos, CloseArray);
    hide At, ParseValue;
  }

  /** Where a document begins the array loop reads it and goes on. */
  lemma ItemsGoOn(src: Source, s: State, depth: nat, first: Doc, values: seq<Value>)
    requires At(src.tokens, s.pos, Tokens(first))
    ensures var item := ParseValue(src, s, depth + 1);
            ParseItems(src, s, depth, values) ==
            if item.Err? then item else ParseItems(src, item.state, depth, values + [item.value])
  {
    AtFirst(src.tokens, s.pos, Tokens(first));
    hide At, ParseValue;
  }

  lemma FirstOfItems(src: Source, items: seq<Doc>)
    requires items != []
    ensures DenoteAll(src, items) == [Denote(src, items[0])] + DenoteAll(src, items[1..])
    ensures CountItems(items) == Count(items[0]) + CountItems(items[1..])
  {
  }

  /** The members fit, do not repeat a key and avoid the keys already read. */
  ghost predicate MembersFit(src: Source, ms: seq<Member>, depth: nat, seen: set<Name>) {
    && Distinct(ms)
    && forall i :: 0 <= i < |ms| ==>
         |ms[i].key.text| <= src.limits.maxString && Fits(src, ms[i].value, depth) && ms[i].key !in seen
  }

  lemma MembersFitFirst(src: Source, ms: seq<Member>, depth: nat, seen: set<Name>)
    requires ms != []
    ensures MembersFit(src, ms, depth, seen) <==>
            && |ms[0].key.text| <= src.limits.maxString && ms[0].key !in seen && Fits(src, ms[0].value, depth)
            && MembersFit(src, ms[1..], depth, seen + {ms[0].key})
  {
    hide Fits;
    var rest := ms[1..];
    assert forall i :: 0 < i < |ms| ==> ms[i] == rest[i - 1];
    assert forall i :: 0 <= i < |rest| ==> rest[i] == ms[i + 1];
  }

  lemma NoMembersFit(src: Source, depth: nat, seen: set<Name>)
    ensures MembersFit(src, [], depth, seen)
  {
  }

  lemma {:induction false} ParsesMembers(src: Source, s: State, depth: nat, ms: seq<Member>, fields: map<Name, Value>)
    requires At(src.tokens, s.pos, MemberTokens(ms) + [CloseObject]) && s.members <= src.limits.maxMembers
    ensures var r := ParseMembers(src, s, depth, fields);
            && (r.Ok? <==> && MembersFit(src, ms, depth + 1, fields.Keys)
                           && s.members + CountMembers(ms) <= src.limits.maxMembers)
            && (r.Ok? ==> r == Ok(Object(Into(src, fields, ms)),
                                  State(s.pos + |MemberTokens(ms)| + 1, s.members + CountMembers(ms))))
    decreases ms
  {
    hide At, Tokens, Fits, MembersFit, ParseValue, Denote, Count;
    if ms == [] {
      AtOne(src.tokens, s.pos, CloseObject);
      assert [] + [CloseObject] == [CloseObject];
      NoMembersFit(src, depth + 1, fields.Keys);
    } else {
      var first, rest := ms[0], ms[1..];
      assert ms == [first] + rest;
      AtMembers(src.tokens, s.pos, first, rest);
      MembersFitFirst(src, ms, depth + 1, fields.Keys);
      var key := ParseKey(src, s, fields);
      if key.Ok? {
        ParsesOne(src, key.state, depth + 1, first);
        var value := ParseValue(src, key.state, depth + 1);
        if value.Ok? {
          ParsesMembers(src, value.state, depth, rest, fields[first.key := value.value]);
          assert fields[first.key := value.value].Keys == fields.Keys + {first.key};
        }
      }
    }
  }

  lemma {:induction false} ParsesOne(src: Source, s: State, depth: nat, m: Member)
    requires At(src.tokens, s.pos, Tokens(m.value)) && s.members <= src.limits.maxMembers
    ensures var r := ParseValue(src, s, depth);
            && (r.Ok? <==> Fits(src, m.value, depth) && s.members + Count(m.value) <= src.limits.maxMembers)
            && (r.Ok? ==> r == Ok(DenoteOne(src, m), State(s.pos + |Tokens(m.value)|, s.members + Count(m.value))))
    decreases m
  {
    ParsesDocument(src, s, depth, m.value);
  }

  // ---------------------------------------------------------------- why a document is refused

  /** The first thing wrong with a document, reading it from left to right with `m` members counted
      before it. */
  function Fault(src: Source, d: Doc, depth: nat, m: nat): Option<Error>
    decreases d
  {
    if depth > src.limits.maxDepth then Some(LimitExceeded)
    else
      match d
      case StringDoc(text) => if |text.text| > src.limits.maxString then Some(LimitExceeded) else None
      case NumberDoc(text) =>
        if |text.text| > src.limits.maxNumber then Some(LimitExceeded)
        else if src.accept(text).None? then Some(UnsafeNumber) else None
      case ArrayDoc(items) => ItemsFault(src, items, depth + 1, m)
      case ObjectDoc(ms) => MembersFault(src, ms, depth + 1, m, {})
      case _ => None
  }

  function ItemsFault(src: Source, items: seq<Doc>, depth: nat, m: nat): Option<Error>
    decreases items
  {
    if items == [] then None
    else
      var first := Fault(src, items[0], depth, m);
      if first.Some? then first else ItemsFault(src, items[1..], depth, m + Count(items[0]))
  }

  function OneFault(src: Source, one: Member, depth: nat, m: nat, seen: set<Name>): Option<Error>
    decreases one
  {
    if |one.key.text| > src.limits.maxString then Some(LimitExceeded)
    else if one.key in seen then Some(Invalid)
    else if m + 1 > src.limits.maxMembers then Some(LimitExceeded)
    else Fault(src, one.value, depth, m + 1)
  }

  function MembersFault(src: Source, ms: seq<Member>, depth: nat, m: nat, seen: set<Name>): Option<Error>
    decreases ms
  {
    if ms == [] then None
    else
      var first := OneFault(src, ms[0], depth, m, seen);
      if first.Some? then first else MembersFault(src, ms[1..], depth, m + CountOne(ms[0]), seen + {ms[0].key})
  }

  ghost predicate SameVerdict(r: Result<Value>, fault: Option<Error>) {
    if r.Ok? then fault.None? else fault == Some(r.error)
  }

  /** On the tokens of a document, parsing reports exactly the first thing wrong with it. */
  lemma {:induction false} ReportsFirstFault(src: Source, s: State, depth: nat, d: Doc)
    requires At(src.tokens, s.pos, Tokens(d)) && s.members <= src.limits.maxMembers
    ensures SameVerdict(ParseValue(src, s, depth), Fault(src, d, depth, s.members))
    decreases d
  {
    AtFirst(src.tokens, s.pos, Tokens(d));
    match d
    case ArrayDoc(items) =>
      AtArray(src.tokens, s.pos, items);
      hide At, Tokens, ItemTokens, ParseItems;
      if depth <= src.limits.maxDepth {
        ReportsItemsFault(src, State(s.pos + 1, s.members), depth, items, []);
      }
    case ObjectDoc(ms) =>
      AtObject(src.tokens, s.pos, ms);
      hide At, Tokens, MemberTokens, ParseMembers;
      if depth <= src.limits.maxDepth {
        var none: map<Name, Value> := map[];
        assert none.Keys == {};
        ReportsMembersFault(src, State(s.pos + 1, s.members), depth, ms, none);
      }
    case _ =>
  }

  lemma {:induction false} ReportsItemsFault(src: Source, s: State, depth: nat, items: seq<Doc>, values: seq<Value>)
    requires At(src.tokens, s.pos, ItemTokens(items) + [CloseArray]) && s.members <= src.limits.maxMembers
    ensures SameVerdict(ParseItems(src, s, depth, values), ItemsFault(src, items, depth + 1, s.members))
    decreases items
  {
    hide At, Tokens, ParseValue, Denote, Fits;
    if items == [] {
      AtOne(src.tokens, s.pos, CloseArray);
      assert [] + [CloseArray] == [CloseArray];
    } else {
      var first, rest := items[0], items[1..];
      assert items == [first] + rest;
      AtItems(src.tokens, s.pos, first, rest);
      AtFirst(src.tokens, s.pos, Tokens(first));
      ReportsFirstFault(src, s, depth + 1, first);
      ParsesDocument(src, s, depth + 1, first);
      var item := ParseValue(src, s, depth + 1);
      if item.Ok? {
        ReportsItemsFault(src, item.state, depth, rest, values + [item.value]);
      }
    }
  }

  lemma {:induction false} ReportsOneFault(src: Source, s: State, depth: nat, m: Member)
    requires At(src.tokens, s.pos, Tokens(m.value)) && s.members <= src.limits.maxMembers
    ensures SameVerdict(ParseValue(src, s, depth), Fault(src, m.value, depth, s.members))
    decreases m
  {
    ReportsFirstFault(src, s, depth, m.value);
  }

  lemma {:induction false} ReportsMembersFault(src: Source, s: State, depth: nat, ms: seq<Member>, fields: map<Name, Value>)
    requires At(src.tokens, s.pos, MemberTokens(ms) + [CloseObject]) && s.members <= src.limits.maxMembers
    ensures SameVerdict(ParseMembers(src, s, depth, fields), MembersFault(src, ms, depth + 1, s.members, fields.Keys))
    decreases ms
  {
    hide At, Tokens, ParseValue, Denote, Fits, Fault;
    if ms == [] {
      AtOne(src.tokens, s.pos, CloseObject);
      assert [] + [CloseObject] == [CloseObject];
    } else {
      var first, rest := ms[0], ms[1..];
      assert ms == [first] + rest;
      AtMembers(src.tokens, s.pos, first, rest);
      var key := ParseKey(src, s, fields);
      if key.Ok? {
        ReportsOneFault(src, key.state, depth + 1, first);
        ParsesOne(src, key.state, depth + 1, first);
        var value := ParseValue(src, key.state, depth + 1);
        if value.Ok? {
          assert fields[first.key := value.value].Keys == fields.Keys + {first.key};
          ReportsMembersFault(src, value.state, depth, rest, fields[first.key := value.value]);
        }
      }
    }
  }

  // ---------------------------------------------------------------- what parses is a document

  /** Whatever the parser accepts is the tokens of some document, and it stops right after it. */
  lemma {:induction false} Reconstruct(src: Source, s: State, depth: nat) returns (d: Doc)
    requires ParseValue(src, s, depth).Ok?
    ensures At(src.tokens, s.pos, Tokens(d))
    ensures ParseValue(src, s, depth).state.pos == s.pos + |Tokens(d)|
    decreases |src.tokens| - s.pos, 0
  {
    var t := src.tokens[s.pos];
    var after := s.(pos := s.pos + 1);
    AtOne(src.tokens, s.pos, t);
    match t
    case NullToken => d := NullDoc;
    case BoolToken(b) => d := BoolDoc(b);
    case StringToken(text) => d := StringDoc(text);
    case NumberToken(text) => d := NumberDoc(text);
    case OpenArray =>
      hide At, Tokens, ItemTokens, ParseItems;
      var items := ReconstructItems(src, after, depth, []);
      d := ArrayDoc(items);
      AtArray(src.tokens, s.pos, items);
    case OpenObject =>
      hide At, Tokens, MemberTokens, ParseMembers;
      var ms := ReconstructMembers(src, after, depth, map[]);
      d := ObjectDoc(ms);
      AtObject(src.tokens, s.pos, ms);
  }

  lemma {:induction false} ReconstructItems(src: Source, s: State, depth: nat, values: seq<Value>)
    returns (items: seq<Doc>)
    requires ParseItems(src, s, depth, values).Ok?
    ensures At(src.tokens, s.pos, ItemTokens(items) + [CloseArray])
    ensures ParseItems(src, s, depth, values).state.pos == s.pos + |ItemTokens(items)| + 1
    decreases |src.tokens| - s.pos, 1
  {
    if More(src, s.pos) {
      hide At, Tokens, ItemTokens, ParseValue;
      var item := ParseValue(src, s, depth + 1);
      var first := Reconstruct(src, s, depth + 1);
      var rest := ReconstructItems(src, item.state, depth, values + [item.value]);
      items := [first] + rest;
      AtItems(src.tokens, s.pos, first, rest);
    } else {
      items := [];
      AtOne(src.tokens, s.pos, CloseArray);
      assert ItemTokens(items) + [CloseArray] == [CloseArray];
    }
  }

  lemma {:induction false} ReconstructMembers(src: Source, s: State, depth: nat, fields: map<Name, Value>)
    returns (ms: seq<Member>)
    requires ParseMembers(src, s, depth, fields).Ok?
    ensures At(src.tokens, s.pos, MemberTokens(ms) + [CloseObject])
    ensures ParseMembers(src, s, depth, fields).state.pos == s.pos + |MemberTokens(ms)| + 1
    decreases |src.tokens| - s.pos, 1
  {
    hide At, Tokens, ParseValue;
    if More(src, s.pos) {
      var key := ParseKey(src, s, fields);
      var value := ParseValue(src, key.state, depth + 1);
      var first := Reconstruct(src, key.state, depth + 1);
      var rest := ReconstructMembers(src, value.state, depth, fields[key.value := value.value]);
      ms := [Member(key.value, first)] + rest;
      AtMembers(src.tokens, s.pos, Member(key.value, first), rest);
    } else {
      ms := [];
      AtOne(src.tokens, s.pos, CloseObject);
      assert MemberTokens(ms) + [CloseObject] == [CloseObject];
    }
  }

  // ---------------------------------------------------------------- whole texts

  /** The decoder's stream ends cleanly, or with an error that a further read reports. */
  function Parse(src: Source, clean: bool): Option<Value> {
    var r := ParseValue(src, State(0, 0), 1);
    if r.Ok? && r.state.pos == |src.tokens| && clean then Some(r.value) else None
  }

  ghost predicate Acceptable(src: Source, d: Doc) {
    Fits(src, d, 1) && Count(d) <= src.limits.maxMembers
  }

  /** Tokenizing and parsing are inverse: a text parses to a value exactly when it is the
      tokens of an acceptable document with that meaning. */
  lemma ParseInvertsTokens(src: Source, clean: bool, v: Value)
    ensures Parse(src, clean) == Some(v) <==>
            clean && exists d :: src.tokens == Tokens(d) && Acceptable(src, d) && v == Denote(src, d)
  {
    if Parse(src, clean) == Some(v) {
      var d := Reconstruct(src, State(0, 0), 1);
      ParsesDocument(src, State(0, 0), 1, d);
      assert src.tokens[0..|Tokens(d)|] == src.tokens;
    } else if clean {
      forall d | src.tokens == Tokens(d) && Acceptable(src, d) ensures v != Denote(src, d) {
        assert src.tokens[0..|Tokens(d)|] == src.tokens;
        ParsesDocument(src, State(0, 0), 1, d);
      }
    }
  }

  /** The object built from distinct members holds each of them and nothing else. */
  lemma {:induction false} ObjectHoldsMembers(src: Source, fields: map<Name, Value>, ms: seq<Member>, k: Name)
    requires Distinct(ms)
    ensures k in Into(src, fields, ms) <==> k in fields || exists i :: 0 <= i < |ms| && ms[i].key == k
    ensures forall i :: 0 <= i < |ms| && ms[i].key == k ==>
              k in Into(src, fields, ms) && Into(src, fields, ms)[k] == Denote(src, ms[i].value)
    ensures k in fields && (forall i :: 0 <= i < |ms| ==> ms[i].key != k) ==>
              k in Into(src, fields, ms) && Into(src, fields, ms)[k] == fields[k]
    decreases ms
  {
    if ms != [] {
      var rest := ms[1..];
      hide Denote;
      assert forall i :: 0 <= i < |rest| ==> rest[i] == ms[i + 1];
      assert forall i :: 0 < i < |ms| ==> ms[i] == rest[i - 1];
      ObjectHoldsMembers(src, fields[ms[0].key := DenoteOne(src, ms[0])], rest, k);
    }
  }
}
