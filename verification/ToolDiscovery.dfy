/** Paging through the visible tools: sort, search past the cursor, slice. */
module ToolDiscovery {
  import opened Text

  datatype Key = Key(tool: Name, version: Name)

  /** The cursor of a first request: it precedes every tool, whose ID is never empty. */
  const START := Key(Name(""), Name(""))

  predicate KeyLess(a: Key, b: Key) {
    if a.tool == b.tool then Less(a.version.text, b.version.text) else Less(a.tool.text, b.tool.text)
  }

  function CompareToolKey(k: Key, cursor: Key): int {
    if Less(k.tool.text, cursor.tool.text) || (k.tool == cursor.tool && Less(k.version.text, cursor.version.text)) then -1
    else if k == cursor then 0
    else 1
  }

  lemma KeyLessTotal(a: Key, b: Key)
    ensures a == b <==> !KeyLess(a, b) && !KeyLess(b, a)
    ensures !(KeyLess(a, b) && KeyLess(b, a))
  {
    LessTotal(a.tool.text, b.tool.text);
    LessTotal(a.version.text, b.version.text);
  }

  lemma KeyLessTransitive(a: Key, b: Key, c: Key)
    requires KeyLess(a, b) && KeyLess(b, c)
    ensures KeyLess(a, c)
  {
    LessTotal(a.tool.text, b.tool.text);
    LessTotal(b.tool.text, c.tool.text);
    if a.tool == b.tool == c.tool {
      LessTransitive(a.version.text, b.version.text, c.version.text);
    } else if a.tool != b.tool && b.tool != c.tool {
      LessTransitive(a.tool.text, b.tool.text, c.tool.text);
      LessTotal(a.tool.text, c.tool.text);
    }
  }

  lemma CompareIsOrder(k: Key, cursor: Key)
    ensures CompareToolKey(k, cursor) > 0 <==> KeyLess(cursor, k)
  {
    LessTotal(k.tool.text, cursor.tool.text);
    LessTotal(k.version.text, cursor.version.text);
  }

  // ---------------------------------------------------------------- sorted listings

  predicate Ascending(s: seq<Key>) {
    forall i, j :: 0 <= i < j < |s| ==> KeyLess(s[i], s[j])
  }

  predicate Unique(s: seq<Key>) {
    forall i, j :: 0 <= i < j < |s| ==> s[i] != s[j]
  }

  predicate Sorted(s: seq<Key>) {
    forall i, j :: 0 <= i < j < |s| ==> !KeyLess(s[j], s[i])
  }

  function Insert(k: Key, s: seq<Key>): seq<Key> {
    if s == [] || KeyLess(k, s[0]) then [k] + s else [s[0]] + Insert(k, s[1..])
  }

  /** What sort.Slice leaves: equal keys cannot be told apart. */
  function Sort(s: seq<Key>): seq<Key> {
    if s == [] then [] else Insert(s[0], Sort(s[1..]))
  }

  lemma {:induction false} InsertKeeps(k: Key, s: seq<Key>)
    requires Ascending(s) && k !in s
    ensures Ascending(Insert(k, s)) && |Insert(k, s)| == |s| + 1
    ensures forall x :: x in Insert(k, s) <==> x == k || x in s
  {
    hide KeyLess;
    if s == [] {
    } else if KeyLess(k, s[0]) {
      forall j | 0 <= j < |s| ensures KeyLess(k, s[j]) {
        if j > 0 {
          KeyLessTransitive(k, s[0], s[j]);
        }
      }
    } else {
      InsertKeeps(k, s[1..]);
      KeyLessTotal(k, s[0]);
      var rest := Insert(k, s[1..]);
      assert s == [s[0]] + s[1..];
      forall j | 0 <= j < |rest| ensures KeyLess(s[0], rest[j]) {
        assert rest[j] in rest;
        if rest[j] != k {
          var i :| 0 <= i < |s[1..]| && s[1..][i] == rest[j];
          assert s[i + 1] == rest[j];
        }
      }
    }
  }

  /** Sorting keeps the members and puts them in strictly ascending order. */
  lemma {:induction false} SortKeeps(s: seq<Key>)
    requires Unique(s)
    ensures Ascending(Sort(s)) && |Sort(s)| == |s|
    ensures forall x :: x in Sort(s) <==> x in s
  {
    if s != [] {
      hide KeyLess;
      assert s == [s[0]] + s[1..];
      assert s[0] !in s[1..] by {
        forall i | 0 <= i < |s[1..]| ensures s[1..][i] != s[0] {
          assert s[1..][i] == s[i + 1];
        }
      }
      assert Unique(s[1..]) by {
        forall i, j | 0 <= i < j < |s[1..]| ensures s[1..][i] != s[1..][j] {
          assert s[1..][i] == s[i + 1] && s[1..][j] == s[j + 1];
        }
      }
      SortKeeps(s[1..]);
      InsertKeeps(s[0], Sort(s[1..]));
    }
  }

  lemma NotLessThenLess(a: Key, b: Key, c: Key)
    requires KeyLess(a, b) && !KeyLess(c, b)
    ensures KeyLess(a, c)
  {
    hide KeyLess;
    KeyLessTotal(b, c);
    if b != c {
      KeyLessTransitive(a, b, c);
    }
  }

  lemma {:induction false} InsertAdds(k: Key, s: seq<Key>)
    ensures multiset(Insert(k, s)) == multiset(s) + multiset{k}
  {
    hide KeyLess;
    if s != [] && !KeyLess(k, s[0]) {
      InsertAdds(k, s[1..]);
      assert s == [s[0]] + s[1..];
    }
  }

  lemma {:induction false} InsertSorted(k: Key, s: seq<Key>)
    requires Sorted(s)
    ensures Sorted(Insert(k, s))
  {
    hide KeyLess;
    if s == [] {
    } else if KeyLess(k, s[0]) {
      forall j | 0 <= j < |s| ensures !KeyLess(s[j], k) {
        if j > 0 {
          NotLessThenLess(k, s[0], s[j]);
        }
        KeyLessTotal(k, s[j]);
      }
    } else {
      var rest := s[1..];
      InsertSorted(k, rest);
      InsertAdds(k, rest);
      var all := Insert(k, rest);
      forall j | 0 <= j < |all| ensures !KeyLess(all[j], s[0]) {
        assert all[j] in multiset(all);
        if all[j] != k {
          assert all[j] in rest;
          var i :| 0 <= i < |rest| && rest[i] == all[j];
          assert s[i + 1] == all[j];
        }
      }
    }
  }

  /** Sorting any list, repeated tools included, keeps every occurrence and orders them. */
  lemma {:induction false} SortPermutes(s: seq<Key>)
    ensures Sorted(Sort(s)) && multiset(Sort(s)) == multiset(s)
  {
    if s != [] {
      hide KeyLess;
      SortPermutes(s[1..]);
      InsertAdds(s[0], Sort(s[1..]));
      InsertSorted(s[0], Sort(s[1..]));
      assert s == [s[0]] + s[1..];
    }
  }

  // ---------------------------------------------------------------- one page

  datatype Page = Page(items: seq<Key>, next: Option<Key>)

  /** `start` splits the listing at the cursor. */
  ghost predicate StartsAfter(listing: seq<Key>, cursor: Key, start: nat) {
    && start <= |listing|
    && (forall i :: 0 <= i < start ==> !KeyLess(cursor, listing[i]))
    && (forall i :: start <= i < |listing| ==> KeyLess(cursor, listing[i]))
  }

  function End(listing: seq<Key>, start: nat, limit: nat): nat {
    if start + limit > |listing| then |listing| else start + limit
  }

  function PageAt(listing: seq<Key>, start: nat, limit: nat): Page
    requires start <= |listing| && limit > 0
  {
    var end := End(listing, start, limit);
    Page(listing[start..end], if end < |listing| then Some(listing[end - 1]) else None)
  }

  /** sort.Search: the first index past the cursor. */
  method Search(listing: seq<Key>, cursor: Key) returns (start: nat)
    requires Sorted(listing)
    ensures StartsAfter(listing, cursor, start)
  {
    var low, high := 0, |listing|;
    while low < high
      invariant low <= high <= |listing|
      invariant forall i :: 0 <= i < low ==> !KeyLess(cursor, listing[i])
      invariant forall i :: high <= i < |listing| ==> KeyLess(cursor, listing[i])
    {
      hide KeyLess;
      var mid := (low + high) / 2;
      CompareIsOrder(listing[mid], cursor);
      if CompareToolKey(listing[mid], cursor) > 0 {
        forall i | mid <= i < |listing| ensures KeyLess(cursor, listing[i]) {
          if i > mid {
            NotLessThenLess(cursor, listing[mid], listing[i]);
          }
        }
        high := mid;
      } else {
        forall i | 0 <= i <= mid ensures !KeyLess(cursor, listing[i]) {
          if KeyLess(cursor, listing[i]) && i < mid {
            NotLessThenLess(cursor, listing[i], listing[mid]);
          }
        }
        low := mid + 1;
      }
    }
    return low;
  }

  /** sort.Slice with the comparison of keys. */
  method SortSlice(tools: array<Key>)
    modifies tools
    ensures tools[..] == Sort(old(tools[..]))
  {
    ghost var before := tools[..];
    SortPermutes(tools[..]);
    var sorted := Sort(tools[..]);
    assert |multiset(sorted)| == |multiset(before)|;
    forall i | 0 <= i < tools.Length {
      tools[i] := sorted[i];
    }
    assert tools[..] == sorted;
  }

  lemma StartInside(listing: seq<Key>, cursor: Key, start: nat)
    requires StartsAfter(listing, cursor, start)
    ensures start <= |listing|
  {
  }

  method ServePage(tools: array<Key>, cursor: Key, limit: nat) returns (page: Page)
    requires limit > 0
    modifies tools
    ensures tools[..] == Sort(old(tools[..]))
    ensures exists start :: StartsAfter(tools[..], cursor, start) && page == PageAt(tools[..], start, limit)
  {
    hide KeyLess, Sort, Sorted, StartsAfter;
    SortPermutes(tools[..]);
    SortSlice(tools);
    ghost var listing := tools[..];
    var start := Search(tools[..], cursor);
    var end := start + limit;
    if end > tools.Length {
      end := tools.Length;
    }
    StartInside(listing, cursor, start);
    var items := [];
    for i := start to end
      invariant items == listing[start..i]
    {
      items := items + [tools[i]];
    }
    page := Page(items, if end < tools.Length then Some(tools[end - 1]) else None);
    assert page == PageAt(listing, start, limit);
  }

  /** A page is what comes right after the cursor: ascending, later than the cursor, and
      nothing visible is skipped up to the next cursor. */
  lemma PageIsGapless(listing: seq<Key>, cursor: Key, start: nat, limit: nat, k: Key)
    requires Ascending(listing) && limit > 0 && StartsAfter(listing, cursor, start)
    ensures var p := PageAt(listing, start, limit);
            && Ascending(p.items) && |p.items| <= limit
            && (k in p.items <==> k in listing && KeyLess(cursor, k) && (p.next.Some? ==> !KeyLess(p.next.value, k)))
            && (p.next.Some? ==> |p.items| == limit && p.next.value == p.items[limit - 1])
  {
    hide KeyLess;
    var end := End(listing, start, limit);
    var items := listing[start..end];
    if k in listing {
      var i :| 0 <= i < |listing| && listing[i] == k;
      if end < |listing| {
        KeyLessTotal(listing[end - 1], k);
      }
      assert start <= i < end ==> items[i - start] == k;
      assert k in items ==> start <= i < end by {
        if k in items {
          var j :| 0 <= j < |items| && items[j] == k;
          KeyLessTotal(listing[i], listing[start + j]);
        }
      }
    }
    assert k in items ==> k in listing;
  }

  // ---------------------------------------------------------------- following cursors

  /** One fetched page: the listing it was cut from and where. */
  datatype Fetch = Fetch(listing: seq<Key>, start: nat)

  /** A walk fetches page after page, each past the cursor the one before handed out; what is
      visible may change in between. Only the last page may be without a next cursor. */
  ghost predicate Walk(fetches: seq<Fetch>, cursor: Key, limit: nat)
    decreases |fetches|
  {
    fetches == [] ||
    (var f := fetches[0];
     && limit > 0 && Ascending(f.listing) && StartsAfter(f.listing, cursor, f.start)
     && var next := PageAt(f.listing, f.start, limit).next;
        if next.None? then |fetches| == 1 else Walk(fetches[1..], next.value, limit))
  }

  ghost function Items(fetches: seq<Fetch>, cursor: Key, limit: nat): seq<Key>
    requires Walk(fetches, cursor, limit)
    decreases |fetches|
  {
    if fetches == [] then []
    else
      var p := PageAt(fetches[0].listing, fetches[0].start, limit);
      p.items + if p.next.None? then [] else Items(fetches[1..], p.next.value, limit)
  }

  /** The walk reached a page without a next cursor. */
  ghost predicate Finished(fetches: seq<Fetch>, cursor: Key, limit: nat)
    requires Walk(fetches, cursor, limit)
    decreases |fetches|
  {
    fetches != [] &&
    (var next := PageAt(fetches[0].listing, fetches[0].start, limit).next;
     next.None? || Finished(fetches[1..], next.value, limit))
  }

  lemma AppendAscending(a: seq<Key>, b: seq<Key>, mid: Key)
    requires Ascending(a) && Ascending(b)
    requires forall i :: 0 <= i < |a| ==> !KeyLess(mid, a[i])
    requires forall i :: 0 <= i < |b| ==> KeyLess(mid, b[i])
    ensures Ascending(a + b)
  {
    hide KeyLess;
    forall i, j | 0 <= i < |a| && 0 <= j < |b| ensures KeyLess(a[i], b[j]) {
      KeyLessTotal(a[i], mid);
      if a[i] != mid {
        KeyLessTransitive(a[i], mid, b[j]);
      }
    }
  }

  /** Pages never repeat a key and never go back, even if the visible tools change. */
  lemma {:induction false} WalkAscends(fetches: seq<Fetch>, cursor: Key, limit: nat)
    requires Walk(fetches, cursor, limit)
    ensures Ascending(Items(fetches, cursor, limit))
    ensures forall k :: k in Items(fetches, cursor, limit) ==> KeyLess(cursor, k)
    decreases |fetches|
  {
    hide KeyLess;
    if fetches != [] {
      var f := fetches[0];
      var p := PageAt(f.listing, f.start, limit);
      forall k
        ensures k in p.items <==> k in f.listing && KeyLess(cursor, k) && (p.next.Some? ==> !KeyLess(p.next.value, k))
      {
        PageIsGapless(f.listing, cursor, f.start, limit, k);
      }
      PageIsGapless(f.listing, cursor, f.start, limit, cursor);
      if p.next.Some? {
        var rest := Items(fetches[1..], p.next.value, limit);
        WalkAscends(fetches[1..], p.next.value, limit);
        assert p.next.value in p.items;
        forall k | k in rest ensures KeyLess(cursor, k) {
          KeyLessTransitive(cursor, p.next.value, k);
        }
        AppendAscending(p.items, rest, p.next.value);
      } else {
        assert p.items + [] == p.items;
      }
    }
  }

  /** A finished walk has every key past its cursor that was visible on all of its pages. */
  lemma {:induction false} WalkMissesNothing(fetches: seq<Fetch>, cursor: Key, limit: nat, k: Key)
    requires Walk(fetches, cursor, limit) && Finished(fetches, cursor, limit)
    requires KeyLess(cursor, k) && forall i :: 0 <= i < |fetches| ==> k in fetches[i].listing
    ensures k in Items(fetches, cursor, limit)
    decreases |fetches|
  {
    hide KeyLess;
    var f := fetches[0];
    var p := PageAt(f.listing, f.start, limit);
    PageIsGapless(f.listing, cursor, f.start, limit, k);
    if p.next.Some? && KeyLess(p.next.value, k) {
      assert forall i :: 0 <= i < |fetches[1..]| ==> fetches[1..][i] == fetches[i + 1];
      WalkMissesNothing(fetches[1..], p.next.value, limit, k);
    }
  }

  // ---------------------------------------------------------------- a fixed set of tools

  function CeilDiv(n: nat, limit: nat): nat
    requires limit > 0
  {
    if n == 0 then 0 else if n <= limit then 1 else 1 + CeilDiv(n - limit, limit)
  }

  /** n / limit, rounded up. */
  lemma {:induction false} CeilDivIsCeiling(n: nat, limit: nat)
    requires limit > 0
    ensures var c := CeilDiv(n, limit); n <= c * limit < n + limit
  {
    if n > limit {
      CeilDivIsCeiling(n - limit, limit);
      var c := CeilDiv(n - limit, limit);
      assert (c + 1) * limit == c * limit + limit;
    }
  }

  ghost predicate SameListing(fetches: seq<Fetch>, listing: seq<Key>) {
    forall i :: 0 <= i < |fetches| ==> fetches[i].listing == listing
  }

  lemma StartIsUnique(listing: seq<Key>, cursor: Key, a: nat, b: nat)
    requires StartsAfter(listing, cursor, a) && StartsAfter(listing, cursor, b)
    ensures a == b
  {
    hide KeyLess;
    var m := if a < b then a else b;
    if m < |listing| {
      assert m < a <==> !KeyLess(cursor, listing[m]);
    }
  }

  /** The cursor a page hands out splits the same listing right after the page. */
  lemma NextStart(listing: seq<Key>, end: nat)
    requires Ascending(listing) && 0 < end <= |listing|
    ensures StartsAfter(listing, listing[end - 1], end)
  {
    hide KeyLess;
    forall i | 0 <= i < end ensures !KeyLess(listing[end - 1], listing[i]) {
      KeyLessTotal(listing[i], listing[end - 1]);
    }
  }

  /** After a page with a next cursor, the rest of a walk continues at the page's end. */
  lemma FixedStep(fetches: seq<Fetch>, cursor: Key, limit: nat, listing: seq<Key>, start: nat)
    requires Walk(fetches, cursor, limit) && fetches != []
    requires SameListing(fetches, listing) && StartsAfter(listing, cursor, start)
    ensures limit > 0 && fetches[0] == Fetch(listing, start)
    ensures var next := PageAt(listing, start, limit).next;
            next.Some? ==>
              && Walk(fetches[1..], next.value, limit) && SameListing(fetches[1..], listing)
              && StartsAfter(listing, next.value, start + limit)
  {
    StartIsUnique(listing, cursor, fetches[0].start, start);
    if PageAt(listing, start, limit).next.Some? {
      NextStart(listing, start + limit);
      var rest := fetches[1..];
      assert forall i :: 0 <= i < |rest| ==> rest[i] == fetches[i + 1];
    }
    hide StartsAfter, Ascending;
  }

  /** A finished walk is its first page, followed by a finished walk unless that was the last. */
  lemma FirstPage(fetches: seq<Fetch>, cursor: Key, limit: nat)
    requires Walk(fetches, cursor, limit) && Finished(fetches, cursor, limit)
    ensures fetches != [] && limit > 0 && fetches[0].start <= |fetches[0].listing|
    ensures var p := PageAt(fetches[0].listing, fetches[0].start, limit);
            if p.next.Some? then
              && Walk(fetches[1..], p.next.value, limit) && Finished(fetches[1..], p.next.value, limit)
              && Items(fetches, cursor, limit) == p.items + Items(fetches[1..], p.next.value, limit)
            else |fetches| == 1 && Items(fetches, cursor, limit) == p.items + []
  {
    hide Ascending, KeyLess;
  }

  /** From position `start` of a fixed listing, a finished walk returns exactly the rest. */
  lemma {:induction false} FixedWalk(fetches: seq<Fetch>, cursor: Key, limit: nat, listing: seq<Key>, start: nat)
    requires Walk(fetches, cursor, limit) && Finished(fetches, cursor, limit)
    requires SameListing(fetches, listing) && StartsAfter(listing, cursor, start)
    ensures start <= |listing| && Items(fetches, cursor, limit) == listing[start..]
    decreases |fetches|
  {
    hide StartsAfter, Ascending, SameListing, PageAt, Walk, Finished, Items;
    FirstPage(fetches, cursor, limit);
    FixedStep(fetches, cursor, limit, listing, start);
    PageThenRest(listing, start, limit);
    var p := PageAt(listing, start, limit);
    if p.next.Some? {
      FixedWalk(fetches[1..], p.next.value, limit, listing, start + limit);
    }
  }

  lemma PageThenRest(listing: seq<Key>, start: nat, limit: nat)
    requires start <= |listing| && limit > 0
    ensures var p := PageAt(listing, start, limit);
            if p.next.Some? then start + limit < |listing| && p.items + listing[start + limit..] == listing[start..]
            else p.items + [] == listing[start..]
  {
  }

  /** It does so in as many pages as that takes, and in one if there is nothing left. */
  lemma {:induction false} FixedPages(fetches: seq<Fetch>, cursor: Key, limit: nat, listing: seq<Key>, start: nat)
    requires Walk(fetches, cursor, limit) && Finished(fetches, cursor, limit)
    requires SameListing(fetches, listing) && StartsAfter(listing, cursor, start)
    ensures limit > 0 && start <= |listing|
    ensures |fetches| == if start == |listing| then 1 else CeilDiv(|listing| - start, limit)
    decreases |fetches|
  {
    hide StartsAfter, Ascending, SameListing, Walk, Finished, Items;
    FirstPage(fetches, cursor, limit);
    FixedStep(fetches, cursor, limit, listing, start);
    var p := PageAt(listing, start, limit);
    if p.next.Some? {
      FixedPages(fetches[1..], p.next.value, limit, listing, start + limit);
    }
  }

  /** A client can always take the next page, and on a fixed set it finishes. */
  lemma {:induction false} WalkFrom(cursor: Key, limit: nat, listing: seq<Key>, start: nat) returns (fetches: seq<Fetch>)
    requires limit > 0 && Ascending(listing) && StartsAfter(listing, cursor, start)
    ensures Walk(fetches, cursor, limit) && Finished(fetches, cursor, limit) && SameListing(fetches, listing)
    decreases |listing| - start
  {
    hide KeyLess;
    var p := PageAt(listing, start, limit);
    var end := End(listing, start, limit);
    if p.next.None? {
      fetches := [Fetch(listing, start)];
    } else {
      NextStart(listing, end);
      var rest := WalkFrom(listing[end - 1], limit, listing, end);
      fetches := [Fetch(listing, start)] + rest;
      assert fetches[1..] == rest;
    }
  }

  /** On a fixed set of n tools, following cursors returns all of them in ascending order in
      exactly ceil(n / limit) pages, at least one; such a walk exists. */
  lemma FixedSetIsListedOnce(tools: seq<Key>, limit: nat)
    requires limit > 0 && Unique(tools) && forall k :: k in tools ==> k.tool.text != ""
    ensures exists fetches ::
              Walk(fetches, START, limit) && Finished(fetches, START, limit) && SameListing(fetches, Sort(tools))
    ensures forall fetches ::
              Walk(fetches, START, limit) && Finished(fetches, START, limit) && SameListing(fetches, Sort(tools)) ==>
              && Items(fetches, START, limit) == Sort(tools)
              && |fetches| == if tools == [] then 1 else CeilDiv(|tools|, limit)
  {
    SortKeeps(tools);
    var listing := Sort(tools);
    StartIsFirst(listing);
    hide Walk, Finished, Items, SameListing, StartsAfter, CeilDiv, Sort, Ascending;
    var example := WalkFrom(START, limit, listing, 0);
    forall fetches | Walk(fetches, START, limit) && Finished(fetches, START, limit) && SameListing(fetches, listing)
      ensures Items(fetches, START, limit) == listing
      ensures |fetches| == if tools == [] then 1 else CeilDiv(|tools|, limit)
    {
      FixedWalk(fetches, START, limit, listing, 0);
      FixedPages(fetches, START, limit, listing, 0);
      assert listing[0..] == listing;
    }
  }

  lemma StartIsFirst(listing: seq<Key>)
    requires forall k :: k in listing ==> k.tool.text != ""
    ensures StartsAfter(listing, START, 0)
  {
    forall i | 0 <= i < |listing| ensures KeyLess(START, listing[i]) {
      assert listing[i] in listing;
    }
  }
}
