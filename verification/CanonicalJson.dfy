/** The strict JSON parser over the decoder's token stream. */
module CanonicalJson {
  import opened Text

  datatype Token = NullToken | BoolToken(truth: bool) | StringToken(text: Name) | NumberToken(text: Name)
                 | OpenArray | CloseArray | OpenObject | CloseObject
  {
    predicate Closes() {
      CloseArray? || CloseObject?
    }
  }

  datatype Value = Null | Bool(truth: bool) | String(text: Name) | Number(value: real)
                 | Array(values: seq<Value>) | Object(members: map<Name, Value>)

  datatype Error = LimitExceeded | Invalid | UnsafeNumber

  datatype Limits = Limits(maxDepth: nat, maxMembers: nat, maxString: nat, maxNumber: nat)

  /** What the parser reads and never changes. `tokens` is what the decoder yields before its
      first error or the end; `accept` is the conversion to a finite binary64, when it exists. */
  datatype Source = Source(tokens: seq<Token>, limits: Limits, accept: Name -> Option<real>)

  datatype State = State(pos: nat, members: nat)

  datatype Result<+T> = Ok(value: T, state: State) | Err(error: Error)

  // ---------------------------------------------------------------- the parser as a function

  predicate More(src: Source, pos: nat) {
    pos < |src.tokens| && !src.tokens[pos].Closes()
  }

  function ParseNumber(src: Source, text: Name, s: State): Result<Value> {
    if |text.text| > src.limits.maxNumber then Err(LimitExceeded)
    else if src.accept(text).None? then Err(UnsafeNumber)
    else Ok(Number(src.accept(text).value), s)
  }

  function ParseValue(src: Source, s: State, depth: nat): (r: Result<Value>)
    ensures r.Ok? ==> s.pos < r.state.pos <= |src.tokens|
    decreases |src.tokens| - s.pos, 0
  {
    if depth > src.limits.maxDepth then Err(LimitExceeded)
    else if s.pos >= |src.tokens| then Err(Invalid)
    else
      var after := s.(pos := s.pos + 1);
      match src.tokens[s.pos]
      case NullToken => Ok(Null, after)
      case BoolToken(b) => Ok(Bool(b), after)
      case StringToken(text) =>
        if |text.text| > src.limits.maxString then Err(LimitExceeded) else Ok(String(text), after)
      case NumberToken(text) => ParseNumber(src, text, after)
      case OpenArray => ParseItems(src, after, depth, [])
      case OpenObject => ParseMembers(src, after, depth, map[])
      case _ => Err(Invalid)
  }

  function ParseItems(src: Source, s: State, depth: nat, values: seq<Value>): (r: Result<Value>)
    ensures r.Ok? ==> s.pos < r.state.pos <= |src.tokens|
    decreases |src.tokens| - s.pos, 1
  {
    if More(src, s.pos) then
      var item := ParseValue(src, s, depth + 1);
      if item.Err? then item else ParseItems(src, item.state, depth, values + [item.value])
    else if s.pos < |src.tokens| && src.tokens[s.pos].CloseArray? then
      Ok(Array(values), s.(pos := s.pos + 1))
    else Err(Invalid)
  }

  /** Reads a key and counts the member. */
  function ParseKey(src: Source, s: State, fields: map<Name, Value>): (r: Result<Name>)
    requires s.pos < |src.tokens|
    ensures r.Ok? ==> r.state == State(s.pos + 1, s.members + 1)
  {
    if !src.tokens[s.pos].StringToken? then Err(Invalid)
    else
      var key := src.tokens[s.pos].text;
      if |key.text| > src.limits.maxString then Err(LimitExceeded)
      else if key in fields then Err(Invalid)
      else if s.members + 1 > src.limits.maxMembers then Err(LimitExceeded)
      else Ok(key, State(s.pos + 1, s.members + 1))
  }

  function ParseMembers(src: Source, s: State, depth: nat, fields: map<Name, Value>): (r: Result<Value>)
    ensures r.Ok? ==> s.pos < r.state.pos <= |src.tokens|
    decreases |src.tokens| - s.pos, 1
  {
    if More(src, s.pos) then
      var key := ParseKey(src, s, fields);
      if key.Err? then Err(key.error)
      else
        var value := ParseValue(src, key.state, depth + 1);
        if value.Err? then value else ParseMembers(src, value.state, depth, fields[key.value := value.value])
    else if s.pos < |src.tokens| && src.tokens[s.pos].CloseObject? then
      Ok(Object(fields), s.(pos := s.pos + 1))
    else Err(Invalid)
  }

  // ---------------------------------------------------------------- the parser in place

  class ParseState {
    const src: Source
    var pos: nat
    var members: nat

    constructor (src: Source)
      ensures this.src == src && pos == 0 && members == 0
    {
      this.src := src;
      pos, members := 0, 0;
    }

    ghost function At(): State
      reads this
    {
      State(pos, members)
    }

    /** The answer agrees with `expected`; on success so does the state reached. */
    ghost predicate Agrees(r: Option<Value>, error: Option<Error>, expected: Result<Value>)
      reads this
    {
      match expected
      case Ok(v, state) => r == Some(v) && error.None? && At() == state
      case Err(e) => r.None? && error == Some(e)
    }

    /** decoder.Token */
    method Token() returns (t: Option<Token>)
      modifies this`pos
      ensures if old(pos) < |src.tokens| then t == Some(src.tokens[old(pos)]) && pos == old(pos) + 1
              else t.None? && pos == old(pos)
    {
      if pos >= |src.tokens| {
        return None;
      }
      t := Some(src.tokens[pos]);
      pos := pos + 1;
    }

    method Value(depth: nat) returns (r: Option<Value>, error: Option<Error>)
      modifies this
      ensures Agrees(r, error, ParseValue(src, old(At()), depth))
      decreases |src.tokens| - pos, 0
    {
      if depth > src.limits.maxDepth {
        return None, Some(LimitExceeded);
      }
      var token := Token();
      if token.None? {
        return None, Some(Invalid);
      }
      match token.value {
        case NullToken => return Some(Null), None;
        case BoolToken(b) => return Some(Bool(b)), None;
        case StringToken(text) =>
          if |text.text| > src.limits.maxString {
            return None, Some(LimitExceeded);
          }
          return Some(String(text)), None;
        case NumberToken(text) =>
          if |text.text| > src.limits.maxNumber {
            return None, Some(LimitExceeded);
          }
          var value := src.accept(text);
          if value.None? {
            return None, Some(UnsafeNumber);
          }
          return Some(Number(value.value)), None;
        case OpenArray =>
          r, error := Items(depth);
        case OpenObject =>
          r, error := Members(depth);
        case _ =>
          return None, Some(Invalid);
      }
    }

    method Items(depth: nat) returns (r: Option<Value>, error: Option<Error>)
      modifies this
      ensures Agrees(r, error, ParseItems(src, old(At()), depth, []))
      decreases |src.tokens| - pos, 1
    {
      var values := [];
      while pos < |src.tokens| && !src.tokens[pos].CloseArray? && !src.tokens[pos].CloseObject?
        invariant ParseItems(src, old(At()), depth, []) == ParseItems(src, At(), depth, values)
        invariant old(pos) <= pos
        decreases |src.tokens| - pos
      {
        var value, failure := Value(depth + 1);
        if value.None? {
          return None, failure;
        }
        values := values + [value.value];
      }
      var end := Token();
      if end != Some(CloseArray) {
        return None, Some(Invalid);
      }
      return Some(Array(values)), None;
    }

    method Members(depth: nat) returns (r: Option<Value>, error: Option<Error>)
      modifies this
      ensures Agrees(r, error, ParseMembers(src, old(At()), depth, map[]))
      decreases |src.tokens| - pos, 1
    {
      var fields := map[];
      while pos < |src.tokens| && !src.tokens[pos].CloseArray? && !src.tokens[pos].CloseObject?
        invariant ParseMembers(src, old(At()), depth, map[]) == ParseMembers(src, At(), depth, fields)
        invariant old(pos) <= pos
        decreases |src.tokens| - pos
      {
        var keyToken := Token();
        if !keyToken.value.StringToken? {
          return None, Some(Invalid);
        }
        var key := keyToken.value.text;
        if |key.text| > src.limits.maxString {
          return None, Some(LimitExceeded);
        }
        if key in fields {
          return None, Some(Invalid);
        }
        members := members + 1;
        if members > src.limits.maxMembers {
          return None, Some(LimitExceeded);
        }
        var value, failure := Value(depth + 1);
        if value.None? {
          return None, failure;
        }
        fields := fields[key := value.value];
      }
      var end := Token();
      if end != Some(CloseObject) {
        return None, Some(Invalid);
      }
      return Some(Object(fields)), None;
    }
  }
}
