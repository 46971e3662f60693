/** Narrowing a local ceiling by the constraints of an allow decision. */
module Narrowing {
  import opened Text
  import opened Authorization

  datatype Error = NotAllowed | InvalidCeiling | InvalidDecision | EmptyIntersection | UnknownArgument

  datatype Result<+T> = Ok(value: T) | Err(error: Error) {
    /** What is left once the reason of a failure is forgotten. */
    function Value(): Option<T> {
      if Ok? then Some(value) else None
    }
  }

  // ---------------------------------------------------------------- one set

  /** The members of `s` also in `keep`, in the order of `s`. */
  function Meet(s: seq<Name>, keep: seq<Name>): seq<Name> {
    if s == [] then []
    else
      var rest := Meet(s[..|s| - 1], keep);
      if s[|s| - 1] in keep then rest + [s[|s| - 1]] else rest
  }

  function NarrowedSet(ceiling: seq<Name>, restriction: seq<Name>): Result<seq<Name>> {
    if restriction == [] then Ok(ceiling)
    else
      var both := Meet(ceiling, restriction);
      if ceiling != [] && both == [] then Err(EmptyIntersection) else Ok(both)
  }

  method NarrowSet(ceiling: seq<Name>, restriction: seq<Name>) returns (r: Result<seq<Name>>)
    ensures r == NarrowedSet(ceiling, restriction)
  {
    if |restriction| == 0 {
      return Ok(ceiling);
    }
    var allowed := {};
    for i := 0 to |restriction|
      invariant forall v :: v in allowed <==> v in restriction[..i]
    {
      assert restriction[..i + 1] == restriction[..i] + [restriction[i]];
      allowed := allowed + {restriction[i]};
    }
    assert restriction[..|restriction|] == restriction;
    var result := [];
    for i := 0 to |ceiling|
      invariant result == Meet(ceiling[..i], restriction)
    {
      assert ceiling[..i + 1][..i] == ceiling[..i];
      if ceiling[i] in allowed {
        result := result + [ceiling[i]];
      }
    }
    assert ceiling[..|ceiling|] == ceiling;
    if |ceiling| != 0 && |result| == 0 {
      return Err(EmptyIntersection);
    }
    return Ok(result);
  }

  lemma {:induction false} MeetMembers(s: seq<Name>, keep: seq<Name>, v: Name)
    ensures v in Meet(s, keep) <==> v in s && v in keep
  {
    if s != [] {
      MeetMembers(s[..|s| - 1], keep, v);
      assert s == s[..|s| - 1] + [s[|s| - 1]];
    }
  }

  lemma {:induction false} MeetNormalized(s: seq<Name>, keep: seq<Name>)
    requires Normalized(s)
    ensures Normalized(Meet(s, keep))
  {
    hide Before, Valid;
    if s != [] {
      var front, last := s[..|s| - 1], s[|s| - 1];
      MeetNormalized(front, keep);
      var rest := Meet(front, keep);
      forall i | 0 <= i < |rest| ensures Before(rest[i], last) {
        MeetMembers(front, keep, rest[i]);
      }
    }
  }

  lemma {:induction false} MeetCommutes(s: seq<Name>, a: seq<Name>, b: seq<Name>)
    ensures Meet(Meet(s, a), b) == Meet(Meet(s, b), a)
  {
    if s != [] {
      var front, last := s[..|s| - 1], s[|s| - 1];
      MeetCommutes(front, a, b);
      MeetAppend(Meet(front, a), last, b);
      MeetAppend(Meet(front, b), last, a);
    }
  }

  lemma MeetAppend(s: seq<Name>, v: Name, keep: seq<Name>)
    ensures Meet(s + [v], keep) == if v in keep then Meet(s, keep) + [v] else Meet(s, keep)
  {
    assert (s + [v])[..|s|] == s;
  }

  lemma {:induction false} MeetAgain(s: seq<Name>, keep: seq<Name>)
    ensures Meet(Meet(s, keep), keep) == Meet(s, keep)
  {
    if s != [] {
      MeetAgain(s[..|s| - 1], keep);
      MeetAppend(Meet(s[..|s| - 1], keep), s[|s| - 1], keep);
    }
  }

  /** The result is exactly the intersection, an empty restriction meaning no restriction; it
      fails exactly when a non-empty ceiling and a non-empty restriction have no common member. */
  lemma NarrowedSetIsIntersection(ceiling: seq<Name>, restriction: seq<Name>)
    ensures var r := NarrowedSet(ceiling, restriction);
            && (r.Err? <==> ceiling != [] && restriction != [] && forall v :: v in ceiling ==> v !in restriction)
            && (r.Ok? ==> forall v :: v in r.value <==> v in ceiling && (restriction == [] || v in restriction))
            && (r.Ok? && Normalized(ceiling) ==> Normalized(r.value))
  {
    forall v ensures v in Meet(ceiling, restriction) <==> v in ceiling && v in restriction {
      MeetMembers(ceiling, restriction, v);
    }
    if Normalized(ceiling) {
      MeetNormalized(ceiling, restriction);
    }
    var both := Meet(ceiling, restriction);
    assert both != [] ==> both[0] in both;
  }

  /** Failing closed on an empty intersection is promised for every restriction; it is kept
      exactly for the non-empty ceilings. */
  lemma FailsClosedIff(ceiling: seq<Name>)
    ensures ceiling != [] <==>
            forall restriction: seq<Name> ::
              restriction != [] && Meet(ceiling, restriction) == [] ==> NarrowedSet(ceiling, restriction).Err?
  {
    if ceiling == [] {
      assert Meet(ceiling, [Name("a")]) == [] && NarrowedSet(ceiling, [Name("a")]).Ok?;
    }
  }

  lemma NarrowedSetCommutes(c: seq<Name>, a: seq<Name>, b: seq<Name>)
    ensures SetThen(NarrowedSet(c, a), b).Value() == SetThen(NarrowedSet(c, b), a).Value()
  {
    MeetCommutes(c, a, b);
    assert Meet([], a) == [] && Meet([], b) == [];
  }

  function SetThen(r: Result<seq<Name>>, restriction: seq<Name>): Result<seq<Name>> {
    if r.Err? then r else NarrowedSet(r.value, restriction)
  }

  lemma NarrowedSetAgain(c: seq<Name>, a: seq<Name>)
    ensures SetThen(NarrowedSet(c, a), a) == NarrowedSet(c, a)
  {
    MeetAgain(c, a);
  }

  // ---------------------------------------------------------------- numbers and arguments

  /** Zero means unlimited; the smaller positive bound wins. */
  function NarrowBound(ceiling: int, restriction: int): int {
    if restriction > 0 && (ceiling == 0 || restriction < ceiling) then restriction else ceiling
  }

  function NarrowedArguments(ceiling: map<Name, int>, restriction: map<Name, int>): Result<map<Name, int>> {
    if !(restriction.Keys <= ceiling.Keys) then Err(UnknownArgument)
    else Ok(map k | k in ceiling ::
              if k in restriction && restriction[k] < ceiling[k] then restriction[k] else ceiling[k])
  }

  /** The loop over the restriction, whose keys come in any order. */
  method NarrowArguments(ceiling: map<Name, int>, restriction: map<Name, int>) returns (r: Result<map<Name, int>>)
    ensures r == NarrowedArguments(ceiling, restriction)
  {
    var arguments := ceiling;
    var pending := restriction.Keys;
    while pending != {}
      invariant pending <= restriction.Keys
      invariant restriction.Keys - pending <= ceiling.Keys
      invariant arguments == map k | k in ceiling ::
                  if k in restriction && k !in pending && restriction[k] < ceiling[k] then restriction[k] else ceiling[k]
    {
      var name :| name in pending;
      if name !in ceiling {
        return Err(UnknownArgument);
      }
      if restriction[name] < ceiling[name] {
        arguments := arguments[name := restriction[name]];
      }
      pending := pending - {name};
    }
    assert restriction.Keys - pending == restriction.Keys;
    assert arguments == NarrowedArguments(ceiling, restriction).value;
    return Ok(arguments);
  }

  // ---------------------------------------------------------------- constraints

  function Narrow(d: Decision, ceiling: Constraints): Result<Constraints> {
    if !d.outcome.Allow? then Err(NotAllowed)
    else if !ValidConstraints(ceiling) then Err(InvalidCeiling)
    else if !ValidConstraints(d.constraints) then Err(InvalidDecision)
    else
      var c := d.constraints;
      var repositories := NarrowedSet(ceiling.repositories, c.repositories);
      var resources := NarrowedSet(ceiling.resources, c.resources);
      var actions := NarrowedSet(ceiling.actions, c.actions);
      var arguments := NarrowedArguments(ceiling.argumentMax, c.argumentMax);
      if repositories.Err? || resources.Err? || actions.Err? then Err(EmptyIntersection)
      else if arguments.Err? then Err(UnknownArgument)
      else Ok(Constraints(repositories.value, resources.value, actions.value, arguments.value,
                          NarrowBound(ceiling.maxResultBytes, c.maxResultBytes),
                          NarrowBound(ceiling.maxDuration, c.maxDuration)))
  }

  method NarrowAuthorizationConstraints(d: Decision, ceiling: Constraints) returns (r: Result<Constraints>)
    ensures r == Narrow(d, ceiling)
  {
    hide NarrowedSet, NarrowedArguments, ValidConstraints;
    if !d.outcome.Allow? {
      return Err(NotAllowed);
    }
    var local := ValidateConstraints(ceiling);
    if !local {
      return Err(InvalidCeiling);
    }
    var theirs := ValidateConstraints(d.constraints);
    if !theirs {
      return Err(InvalidDecision);
    }
    var c := d.constraints;
    var repositories := NarrowSet(ceiling.repositories, c.repositories);
    if repositories.Err? {
      return Err(EmptyIntersection);
    }
    var resources := NarrowSet(ceiling.resources, c.resources);
    if resources.Err? {
      return Err(EmptyIntersection);
    }
    var actions := NarrowSet(ceiling.actions, c.actions);
    if actions.Err? {
      return Err(EmptyIntersection);
    }
    var arguments := NarrowArguments(ceiling.argumentMax, c.argumentMax);
    if arguments.Err? {
      return Err(UnknownArgument);
    }
    var bytes, duration := ceiling.maxResultBytes, ceiling.maxDuration;
    if c.maxResultBytes > 0 && (bytes == 0 || c.maxResultBytes < bytes) {
      bytes := c.maxResultBytes;
    }
    if c.maxDuration > 0 && (duration == 0 || c.maxDuration < duration) {
      duration := c.maxDuration;
    }
    return Ok(Constraints(repositories.value, resources.value, actions.value, arguments.value, bytes, duration));
  }

  // ---------------------------------------------------------------- the algebra

  ghost predicate Subset(a: seq<Name>, b: seq<Name>) {
    forall v :: v in a ==> v in b
  }

  /** A zero bound is the absence of one. */
  predicate BoundAtMost(a: int, b: int) {
    b == 0 || 0 < a <= b
  }

  /** Nothing grew. */
  ghost predicate AtMost(a: Constraints, b: Constraints) {
    && Subset(a.repositories, b.repositories) && Subset(a.resources, b.resources) && Subset(a.actions, b.actions)
    && a.argumentMax.Keys == b.argumentMax.Keys
    && (forall k :: k in a.argumentMax ==> a.argumentMax[k] <= b.argumentMax[k])
    && BoundAtMost(a.maxResultBytes, b.maxResultBytes) && BoundAtMost(a.maxDuration, b.maxDuration)
  }

  /** Narrowing never grows anything, respects the decision wherever the decision restricts,
      lowers nothing further than the decision asks, and yields a valid ceiling again. */
  lemma NarrowOnlyShrinks(d: Decision, ceiling: Constraints)
    requires Narrow(d, ceiling).Ok?
    ensures var c := Narrow(d, ceiling).value;
            && AtMost(c, ceiling) && ValidConstraints(c)
            && (forall k :: k in d.constraints.argumentMax ==> c.argumentMax[k] <= d.constraints.argumentMax[k])
            && BoundAtMost(c.maxResultBytes, d.constraints.maxResultBytes)
            && BoundAtMost(c.maxDuration, d.constraints.maxDuration)
            && (d.constraints.repositories != [] ==> Subset(c.repositories, d.constraints.repositories))
            && (d.constraints.resources != [] ==> Subset(c.resources, d.constraints.resources))
            && (d.constraints.actions != [] ==> Subset(c.actions, d.constraints.actions))
            && c.maxResultBytes in {ceiling.maxResultBytes, d.constraints.maxResultBytes}
            && c.maxDuration in {ceiling.maxDuration, d.constraints.maxDuration}
            && forall k :: k in c.argumentMax && c.argumentMax[k] != ceiling.argumentMax[k] ==>
                 k in d.constraints.argumentMax && c.argumentMax[k] == d.constraints.argumentMax[k]
  {
    NarrowedSetIsIntersection(ceiling.repositories, d.constraints.repositories);
    NarrowedSetIsIntersection(ceiling.resources, d.constraints.resources);
    NarrowedSetIsIntersection(ceiling.actions, d.constraints.actions);
    hide NarrowedSet, Normalized, Valid;
  }

  function Then(c: Option<Constraints>, d: Decision): Option<Constraints> {
    if c.None? then None else Narrow(d, c.value).Value()
  }

  lemma ArgumentsCommute(c: map<Name, int>, a: map<Name, int>, b: map<Name, int>)
    ensures var x := NarrowedArguments(c, a);
            var y := NarrowedArguments(c, b);
            (if x.Err? then None else NarrowedArguments(x.value, b).Value())
            == (if y.Err? then None else NarrowedArguments(y.value, a).Value())
  {
    var x, y := NarrowedArguments(c, a), NarrowedArguments(c, b);
    if x.Ok? && y.Ok? {
      assert x.value.Keys == c.Keys == y.value.Keys;
      assert NarrowedArguments(x.value, b).value == NarrowedArguments(y.value, a).value;
    } else if x.Ok? {
      assert x.value.Keys == c.Keys;
    } else if y.Ok? {
      assert y.value.Keys == c.Keys;
    }
  }

  lemma CommutesWhenOk(c: Constraints, a: Decision, b: Decision)
    requires Narrow(a, c).Ok? && Narrow(b, Narrow(a, c).value).Ok?
    ensures Narrow(b, c).Ok? && Narrow(a, Narrow(b, c).value) == Narrow(b, Narrow(a, c).value)
  {
    NarrowedSetCommutes(c.repositories, a.constraints.repositories, b.constraints.repositories);
    NarrowedSetCommutes(c.resources, a.constraints.resources, b.constraints.resources);
    NarrowedSetCommutes(c.actions, a.constraints.actions, b.constraints.actions);
    ArgumentsCommute(c.argumentMax, a.constraints.argumentMax, b.constraints.argumentMax);
    hide NarrowedSet, NarrowedArguments, ValidConstraints;
    NarrowOnlyShrinks(b, c);
  }

  /** The order of two decisions does not matter: the same constraints, or a failure both ways. */
  lemma NarrowCommutes(c: Constraints, a: Decision, b: Decision)
    ensures Then(Narrow(a, c).Value(), b) == Then(Narrow(b, c).Value(), a)
  {
    hide Narrow;
    if Then(Narrow(a, c).Value(), b).Some? {
      CommutesWhenOk(c, a, b);
    } else if Then(Narrow(b, c).Value(), a).Some? {
      CommutesWhenOk(c, b, a);
    }
  }

  lemma ArgumentsAgain(c: map<Name, int>, a: map<Name, int>)
    requires NarrowedArguments(c, a).Ok?
    ensures NarrowedArguments(NarrowedArguments(c, a).value, a) == NarrowedArguments(c, a)
  {
    var once := NarrowedArguments(c, a).value;
    assert once.Keys == c.Keys;
    assert NarrowedArguments(once, a).value == once;
  }

  /** Applying a decision twice changes nothing. */
  lemma NarrowAgain(c: Constraints, a: Decision)
    ensures Then(Narrow(a, c).Value(), a) == Narrow(a, c).Value()
  {
    if Narrow(a, c).Ok? {
      NarrowedSetAgain(c.repositories, a.constraints.repositories);
      NarrowedSetAgain(c.resources, a.constraints.resources);
      NarrowedSetAgain(c.actions, a.constraints.actions);
      ArgumentsAgain(c.argumentMax, a.constraints.argumentMax);
      NarrowOnlyShrinks(a, c);
      hide NarrowedSet, NarrowedArguments, ValidConstraints, AtMost;
    }
  }

  // ---------------------------------------------------------------- any number of decisions

  function NarrowAll(c: Option<Constraints>, ds: seq<Decision>): Option<Constraints> {
    if ds == [] then c else Then(NarrowAll(c, ds[..|ds| - 1]), ds[|ds| - 1])
  }

  lemma ThenCommutes(c: Option<Constraints>, a: Decision, b: Decision)
    ensures Then(Then(c, a), b) == Then(Then(c, b), a)
  {
    if c.Some? {
      NarrowCommutes(c.value, a, b);
    }
  }

  lemma ThenAgain(c: Option<Constraints>, a: Decision)
    ensures Then(Then(c, a), a) == Then(c, a)
  {
    if c.Some? {
      NarrowAgain(c.value, a);
    }
  }

  /** A decision that already took part adds nothing at the end. */
  lemma {:induction false} Absorbed(c: Option<Constraints>, ds: seq<Decision>, d: Decision)
    requires d in ds
    ensures Then(NarrowAll(c, ds), d) == NarrowAll(c, ds)
  {
    hide Then;
    var front, last := ds[..|ds| - 1], ds[|ds| - 1];
    assert ds == front + [last];
    if d == last {
      ThenAgain(NarrowAll(c, front), d);
    } else {
      Absorbed(c, front, d);
      ThenCommutes(NarrowAll(c, front), last, d);
    }
  }

  /** A decision may be applied first or last. */
  lemma {:induction false} FirstOrLast(c: Option<Constraints>, ds: seq<Decision>, d: Decision)
    ensures NarrowAll(Then(c, d), ds) == Then(NarrowAll(c, ds), d)
  {
    hide Then;
    if ds != [] {
      FirstOrLast(c, ds[..|ds| - 1], d);
      ThenCommutes(NarrowAll(c, ds[..|ds| - 1]), ds[|ds| - 1], d);
    }
  }

  lemma {:induction false} AllAbsorbed(c: Option<Constraints>, ds: seq<Decision>, es: seq<Decision>)
    requires forall e :: e in es ==> e in ds
    ensures NarrowAll(NarrowAll(c, es), ds) == NarrowAll(c, ds)
  {
    hide Then;
    if es != [] {
      var front, last := es[..|es| - 1], es[|es| - 1];
      AllAbsorbed(c, ds, front);
      FirstOrLast(NarrowAll(c, front), ds, last);
      Absorbed(c, ds, last);
    }
  }

  lemma {:induction false} AllCommute(c: Option<Constraints>, ds: seq<Decision>, es: seq<Decision>)
    ensures NarrowAll(NarrowAll(c, es), ds) == NarrowAll(NarrowAll(c, ds), es)
  {
    hide Then;
    if es != [] {
      AllCommute(c, ds, es[..|es| - 1]);
      FirstOrLast(NarrowAll(c, es[..|es| - 1]), ds, es[|es| - 1]);
    }
  }

  /** The outcome of any number of narrowings depends only on which decisions were applied:
      neither their order nor repetitions matter. */
  lemma OnlyTheSetMatters(c: Constraints, ds: seq<Decision>, es: seq<Decision>)
    requires forall d :: d in ds <==> d in es
    ensures NarrowAll(Some(c), ds) == NarrowAll(Some(c), es)
  {
    AllAbsorbed(Some(c), ds, es);
    AllAbsorbed(Some(c), es, ds);
    AllCommute(Some(c), ds, es);
  }
}
