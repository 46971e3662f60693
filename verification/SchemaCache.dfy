/** The compiled-schema cache: a map and a list in order of last use.

    The schema compiler is a parameter. A document stands for its SHA-256 key.
 */
module SchemaCache {
  import opened Text

  type Document = Name

  /** Identity of a compiled schema. */
  type Schema = nat

  type Compiler = Document -> Option<Schema>

  datatype Cache = Cache(schemas: map<Document, Schema>, order: seq<Document>)

  // ---------------------------------------------------------------- one compilation

  function Remove(order: seq<Document>, d: Document): seq<Document> {
    if order == [] then [] else if order[0] == d then order[1..] else [order[0]] + Remove(order[1..], d)
  }

  /** container/list MoveToFront, or PushFront of a newcomer. */
  function ToFront(order: seq<Document>, d: Document): seq<Document> {
    [d] + Remove(order, d)
  }

  function Take(order: seq<Document>, n: nat): seq<Document> {
    if |order| <= n then order else order[..n]
  }

  /** Dropping from the back until at most `n` are left. */
  function Trim(c: Cache, n: nat): Cache {
    var order := Take(c.order, n);
    Cache(map d | d in c.schemas && (d in order || d !in c.order) :: c.schemas[d], order)
  }

  function Compiled(compile: Compiler, n: nat, c: Cache, d: Document): (Cache, Option<Schema>) {
    if d in c.schemas then (c.(order := ToFront(c.order, d)), Some(c.schemas[d]))
    else
      var schema := compile(d);
      if schema.None? then (c, None)
      else (Trim(Cache(c.schemas[d := schema.value], [d] + c.order), n), schema)
  }

  const DEFAULT_ENTRIES: nat := 128
  const MAXIMUM_ENTRIES: nat := 1024

  class Validator {
    const maxEntries: nat
    var schemas: map<Document, Schema>
    var order: seq<Document>

    /** A bound that is not positive, or too large, becomes the default. */
    constructor (maxCacheEntries: int)
      ensures 1 <= maxEntries <= MAXIMUM_ENTRIES
      ensures 1 <= maxCacheEntries <= MAXIMUM_ENTRIES ==> maxEntries == maxCacheEntries
      ensures View() == Cache(map[], [])
    {
      maxEntries := if maxCacheEntries <= 0 || maxCacheEntries > MAXIMUM_ENTRIES then DEFAULT_ENTRIES else maxCacheEntries;
      schemas, order := map[], [];
    }

    ghost function View(): Cache
      reads this
    {
      Cache(schemas, order)
    }

    method Compile(compile: Compiler, d: Document) returns (schema: Option<Schema>)
      requires maxEntries >= 1 && Ok(compile, maxEntries, View())
      modifies this
      ensures (View(), schema) == Compiled(compile, maxEntries, old(View()), d)
      ensures Ok(compile, maxEntries, View()) && schema == compile(d)
    {
      CompiledKeeps(compile, maxEntries, View(), d);
      assert Distinct(order) && (d !in schemas ==> d !in order);
      hide Trim, Ok;
      if d in schemas {
        order := ToFront(order, d);
        return Some(schemas[d]);
      }
      schema := compile(d);
      if schema.None? {
        return;
      }
      order := [d] + order;
      schemas := schemas[d := schema.value];
      EvictBack();
    }

    /** Drops from the back of the list, and from the map, until the bound is met. */
    method EvictBack()
      requires Distinct(order)
      modifies this
      ensures View() == Trim(old(View()), maxEntries)
    {
      hide Trim, Distinct;
      ghost var full := View();
      TrimNothing(full, |order|);
      TrimNothing(full, maxEntries);
      while |order| > maxEntries
        invariant |order| <= |full.order| && (maxEntries <= |order| || order == full.order)
        invariant View() == Trim(full, |order|)
        decreases |order|
      {
        DropLast(full, |order|);
        var last := order[|order| - 1];
        schemas := map k | k in schemas && k != last :: schemas[k];
        order := order[..|order| - 1];
      }
    }
  }

  lemma TrimNothing(full: Cache, n: nat)
    ensures |full.order| <= n ==> Trim(full, n) == full
  {
    assert (map d | d in full.schemas && (d in full.order || d !in full.order) :: full.schemas[d]) == full.schemas;
  }

  /** Dropping the document at the back. */
  function Popped(c: Cache): Cache
    requires c.order != []
  {
    var n := |c.order| - 1;
    Cache(map k | k in c.schemas && k != c.order[n] :: c.schemas[k], c.order[..n])
  }

  lemma DropLast(full: Cache, n: nat)
    requires 0 < n <= |full.order| && Distinct(full.order)
    ensures |Trim(full, n).order| == n && Trim(full, n - 1) == Popped(Trim(full, n))
  {
    var order := Take(full.order, n);
    var less := order[..n - 1];
    assert order == less + [order[n - 1]];
    assert order[n - 1] !in less;
    assert Take(full.order, n - 1) == less;
  }

  // ---------------------------------------------------------------- what the cache is

  ghost predicate Distinct(order: seq<Document>) {
    forall i, j :: 0 <= i < j < |order| ==> order[i] != order[j]
  }

  /** Both halves describe the same documents, within the bound, each compiled faithfully. */
  ghost predicate Ok(compile: Compiler, n: nat, c: Cache) {
    && Distinct(c.order) && |c.order| <= n
    && (forall d :: d in c.schemas <==> d in c.order)
    && (forall d :: d in c.schemas ==> compile(d) == Some(c.schemas[d]))
  }

  lemma {:induction false} RemoveKeeps(order: seq<Document>, d: Document)
    requires Distinct(order)
    ensures Distinct(Remove(order, d)) && d !in Remove(order, d)
    ensures forall x :: x in Remove(order, d) <==> x in order && x != d
    ensures |Remove(order, d)| == if d in order then |order| - 1 else |order|
  {
    if order != [] {
      var rest := order[1..];
      assert order == [order[0]] + rest;
      assert Distinct(rest) && order[0] !in rest;
      RemoveKeeps(rest, d);
    }
  }

  lemma CompiledKeeps(compile: Compiler, n: nat, c: Cache, d: Document)
    requires n >= 1 && Ok(compile, n, c)
    ensures Ok(compile, n, Compiled(compile, n, c, d).0)
    ensures Compiled(compile, n, c, d).1 == compile(d)
  {
    RemoveKeeps(c.order, d);
    if d !in c.schemas && compile(d).Some? {
      var full := [d] + c.order;
      assert Distinct(full);
      assert forall x :: x in Take(full, n) ==> x in full;
    }
  }

  // ---------------------------------------------------------------- runs

  function Run(compile: Compiler, n: nat, docs: seq<Document>): Cache {
    if docs == [] then Cache(map[], [])
    else Compiled(compile, n, Run(compile, n, docs[..|docs| - 1]), docs[|docs| - 1]).0
  }

  /** All documents that ever compiled, most recently used first, as if nothing were evicted. */
  function Recent(compile: Compiler, docs: seq<Document>): seq<Document> {
    if docs == [] then []
    else
      var before := Recent(compile, docs[..|docs| - 1]);
      var d := docs[|docs| - 1];
      if compile(d).None? then before else ToFront(before, d)
  }

  lemma TakeCons(first: Document, rest: seq<Document>, n: nat)
    ensures Take([first] + rest, n + 1) == [first] + Take(rest, n)
    ensures Take(rest, 0) == []
  {
  }

  /** When a document was last compiled successfully; 0 if never. */
  function LastUse(compile: Compiler, docs: seq<Document>, d: Document): nat {
    if docs == [] then 0
    else if docs[|docs| - 1] == d && compile(d).Some? then |docs|
    else LastUse(compile, docs[..|docs| - 1], d)
  }

  lemma {:induction false} RecentHoldsUsed(compile: Compiler, docs: seq<Document>)
    ensures Distinct(Recent(compile, docs))
    ensures forall d :: d in Recent(compile, docs) <==> LastUse(compile, docs, d) > 0
    ensures forall d :: LastUse(compile, docs, d) <= |docs|
  {
    if docs != [] {
      var front, d := docs[..|docs| - 1], docs[|docs| - 1];
      RecentHoldsUsed(compile, front);
      RemoveKeeps(Recent(compile, front), d);
      hide Remove;
    }
  }

  /** The order of recent documents is the order of their last use, and none that was used is
      missing. */
  lemma {:induction false} RecentIsByLastUse(compile: Compiler, docs: seq<Document>)
    ensures Distinct(Recent(compile, docs))
    ensures forall d :: d in Recent(compile, docs) <==> LastUse(compile, docs, d) > 0
    ensures forall d :: LastUse(compile, docs, d) <= |docs|
    ensures forall i, j :: 0 <= i < j < |Recent(compile, docs)| ==>
              LastUse(compile, docs, Recent(compile, docs)[i]) > LastUse(compile, docs, Recent(compile, docs)[j])
  {
    hide LastUse, Distinct, Remove;
    RecentHoldsUsed(compile, docs);
    RecentIsOrdered(compile, docs);
  }

  lemma {:induction false} RecentIsOrdered(compile: Compiler, docs: seq<Document>)
    ensures ByLastUse(compile, docs, Recent(compile, docs))
  {
    if docs != [] {
      var front, d := docs[..|docs| - 1], docs[|docs| - 1];
      var before := Recent(compile, front);
      RecentIsOrdered(compile, front);
      if compile(d).Some? {
        RecentHoldsUsed(compile, front);
        RemoveKeeps(before, d);
        RemoveKeepsOrder(compile, front, before, d);
        assert docs == front + [d];
        FrontIsLatest(compile, front, d, Remove(before, d));
      } else {
        assert forall x :: LastUse(compile, docs, x) == LastUse(compile, front, x);
      }
    }
  }

  /** What was just used goes in front of everything used before it. */
  lemma FrontIsLatest(compile: Compiler, docs: seq<Document>, d: Document, rest: seq<Document>)
    requires compile(d).Some? && d !in rest && ByLastUse(compile, docs, rest)
    requires forall x :: LastUse(compile, docs, x) <= |docs|
    ensures ByLastUse(compile, docs + [d], [d] + rest)
  {
    hide LastUse;
    forall i, j | 0 <= i < j < |[d] + rest|
      ensures LastUse(compile, docs + [d], ([d] + rest)[i]) > LastUse(compile, docs + [d], ([d] + rest)[j])
    {
      assert ([d] + rest)[j] == rest[j - 1];
      UsedLater(compile, docs, d, rest[j - 1], if i == 0 then d else rest[i - 1]);
    }
  }

  lemma UsedLater(compile: Compiler, docs: seq<Document>, d: Document, older: Document, newer: Document)
    requires compile(d).Some? && older != d && LastUse(compile, docs, older) <= |docs|
    requires newer == d || LastUse(compile, docs, newer) > LastUse(compile, docs, older)
    ensures LastUse(compile, docs + [d], newer) > LastUse(compile, docs + [d], older)
  {
    hide LastUse;
    LastUseAppended(compile, docs, d, older);
    LastUseAppended(compile, docs, d, newer);
  }

  lemma LastUseAppended(compile: Compiler, docs: seq<Document>, d: Document, x: Document)
    requires compile(d).Some?
    ensures LastUse(compile, docs + [d], x) == if x == d then |docs| + 1 else LastUse(compile, docs, x)
  {
    assert (docs + [d])[..|docs|] == docs;
  }

  ghost predicate ByLastUse(compile: Compiler, docs: seq<Document>, order: seq<Document>) {
    forall i, j :: 0 <= i < j < |order| ==> LastUse(compile, docs, order[i]) > LastUse(compile, docs, order[j])
  }

  lemma {:induction false} RemoveKeepsOrder(compile: Compiler, docs: seq<Document>, order: seq<Document>, d: Document)
    requires ByLastUse(compile, docs, order) && Distinct(order)
    ensures ByLastUse(compile, docs, Remove(order, d))
  {
    hide LastUse;
    if order != [] && order[0] != d {
      var rest := order[1..];
      assert Distinct(rest) && ByLastUse(compile, docs, rest);
      RemoveKeepsOrder(compile, docs, rest, d);
      RemoveKeeps(rest, d);
      var less := Remove(rest, d);
      forall j | 0 <= j < |less| ensures LastUse(compile, docs, order[0]) > LastUse(compile, docs, less[j]) {
        assert less[j] in rest;
        var i :| 0 <= i < |rest| && rest[i] == less[j];
        assert order[i + 1] == less[j];
      }
    }
  }

  /** Removing before or after cutting off the tail. */
  lemma {:induction false} RemoveTake(order: seq<Document>, d: Document, n: nat)
    requires n >= 1
    ensures Take(Remove(order, d), n - 1) == if d in Take(order, n) then Remove(Take(order, n), d) else Take(order, n - 1)
  {
    if order != [] {
      var first, rest := order[0], order[1..];
      assert order == [first] + rest;
      TakeCons(first, rest, n - 1);
      TakeCons(first, Remove(rest, d), 0);
      hide Take;
      if first != d && n > 1 {
        TakeCons(first, rest, n - 2);
        TakeCons(first, Remove(rest, d), n - 2);
        RemoveTake(rest, d, n - 1);
        RemoveCons(first, Take(rest, n - 1), d);
      } else {
        RemoveCons(first, Take(rest, n - 1), d);
      }
    }
  }

  lemma RemoveCons(first: Document, rest: seq<Document>, d: Document)
    ensures Remove([first] + rest, d) == if first == d then rest else [first] + Remove(rest, d)
  {
    assert ([first] + rest)[1..] == rest;
  }

  lemma TakeToFront(order: seq<Document>, d: Document, n: nat)
    requires n >= 1
    ensures Take(ToFront(order, d), n) ==
            if d in Take(order, n) then ToFront(Take(order, n), d) else Take([d] + Take(order, n), n)
  {
    RemoveTake(order, d, n);
    hide Remove;
    assert Take([d] + Remove(order, d), n) == [d] + Take(Remove(order, d), n - 1);
    assert Take([d] + Take(order, n), n) == [d] + Take(order, n - 1);
  }

  /** The cache holds exactly the most recently used documents, in order of last use, and
      forgets nothing sooner than its bound demands. */
  lemma {:induction false} HoldsTheMostRecent(compile: Compiler, n: nat, docs: seq<Document>)
    requires n >= 1
    ensures Ok(compile, n, Run(compile, n, docs))
    ensures Run(compile, n, docs).order == Take(Recent(compile, docs), n)
  {
    if docs != [] {
      var front, d := docs[..|docs| - 1], docs[|docs| - 1];
      HoldsTheMostRecent(compile, n, front);
      CompiledKeeps(compile, n, Run(compile, n, front), d);
      TakeToFront(Recent(compile, front), d, n);
      hide ToFront, Take, Distinct;
    }
  }

  /** Caching cannot be observed: every call answers what compiling afresh would. */
  lemma {:induction false} CachingIsTransparent(compile: Compiler, n: nat, docs: seq<Document>, d: Document)
    requires n >= 1
    ensures Compiled(compile, n, Run(compile, n, docs), d).1 == compile(d)
  {
    HoldsTheMostRecent(compile, n, docs);
    CompiledKeeps(compile, n, Run(compile, n, docs), d);
  }
}
