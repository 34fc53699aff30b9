/** Listing all names page by page over a store that iterates in byte order. */
module Paging {
  import opened Prelude
  import opened LeaseMath
  import opened NameStates
  import opened Auctions
  import opened Views

  const DEFAULT_LIMIT := 10
  const MAX_LIMIT := 30

  /** Lexicographic order on byte strings. */
  predicate Less(a: Name, b: Name) {
    if |b| == 0 then false
    else if |a| == 0 then true
    else a[0] < b[0] || (a[0] == b[0] && Less(a[1..], b[1..]))
  }

  predicate StrictlyAscending(s: seq<Name>) {
    forall i, j | 0 <= i < j < |s| :: Less(s[i], s[j])
  }

  // ----- The order is total

  lemma {:induction false} LessTransitive(a: Name, b: Name, c: Name)
    requires Less(a, b) && Less(b, c)
    ensures Less(a, c)
  {
    if |a| > 0 && a[0] == b[0] == c[0] {
      LessTransitive(a[1..], b[1..], c[1..]);
    }
  }

  lemma {:induction false} LessTotal(a: Name, b: Name)
    ensures Less(a, b) || a == b || Less(b, a)
    ensures !(Less(a, b) && Less(b, a))
    ensures !Less(a, a)
  {
    if |a| > 0 {
      LessTotal(a[1..], a[1..]);
      if |b| > 0 && a[0] == b[0] {
        LessTotal(a[1..], b[1..]);
        assert a == [a[0]] + a[1..] && b == [b[0]] + b[1..];
      }
    }
  }

  /** A key with a zero byte appended is its immediate successor: the keys from there on are the keys after it. */
  lemma {:induction false} ZeroByteSuccessor(s: Name, k: Name)
    ensures Less(s, k) <==> !Less(k, s + [0])
  {
    if |s| > 0 && |k| > 0 {
      assert (s + [0])[1..] == s[1..] + [0];
      ZeroByteSuccessor(s[1..], k[1..]);
    }
  }

  // ----- The store in key order

  ghost predicate IsLeast(keys: set<Name>, k: Name) {
    k in keys && forall j | j in keys && j != k :: Less(k, j)
  }

  lemma {:induction false} LeastOfMore(keys: set<Name>, k: Name, x: Name)
    requires IsLeast(keys, k)
    ensures IsLeast(keys + {x}, if Less(x, k) then x else k)
  {
    LessTotal(x, k);
    if Less(x, k) {
      forall j | j in keys
        ensures Less(x, j)
      {
        if j != k {
          LessTransitive(x, k, j);
        }
      }
    }
  }

  lemma {:induction false} LeastExists(keys: set<Name>)
    requires keys != {}
    ensures exists k :: IsLeast(keys, k)
    decreases keys
  {
    var x :| x in keys;
    if keys == {x} {
      assert IsLeast(keys, x);
    } else {
      LeastExists(keys - {x});
      var k :| IsLeast(keys - {x}, k);
      LeastOfMore(keys - {x}, k, x);
      assert keys - {x} + {x} == keys;
    }
  }

  ghost function Ascending(keys: set<Name>): seq<Name>
    decreases keys
  {
    if keys == {} then []
    else
      LeastExists(keys);
      var k :| IsLeast(keys, k);
      [k] + Ascending(keys - {k})
  }

  /** Every key once, in order. */
  lemma {:induction false} AscendingEnumerates(keys: set<Name>)
    ensures StrictlyAscending(Ascending(keys))
    ensures forall k :: k in Ascending(keys) <==> k in keys
    decreases keys
  {
    if keys != {} {
      var s := Ascending(keys);
      AscendingEnumerates(keys - {s[0]});
      assert s[1..] == Ascending(keys - {s[0]});
    }
  }

  /** There is only one such listing. */
  lemma {:induction false} AscendingUnique(s: seq<Name>, t: seq<Name>)
    requires StrictlyAscending(s) && StrictlyAscending(t)
    requires forall k :: k in s <==> k in t
    ensures s == t
  {
    assert t != [] ==> t[0] in t;
    if s != [] {
      assert s[0] in s;
      var i :| 0 <= i < |t| && t[i] == s[0];
      var j :| 0 <= j < |s| && s[j] == t[0];
      LessTotal(s[0], t[0]);
      assert s[0] == t[0];
      forall k
        ensures k in s[1..] <==> k in t[1..]
      {
        LessTotal(k, s[0]);
        TailMember(s, k);
        TailMember(t, k);
      }
      AscendingUnique(s[1..], t[1..]);
    }
  }

  lemma {:induction false} TailMember(s: seq<Name>, k: Name)
    requires s != [] && StrictlyAscending(s)
    ensures k in s[1..] <==> k in s && k != s[0]
  {
    LessTotal(s[0], s[0]);
    assert s == [s[0]] + s[1..];
  }

  // ----- Pages

  function RangeStart(startAfter: Option<Name>): Option<Name> {
    match startAfter
    case None => None
    case Some(s) => Some(s + [0])
  }

  function KeysFrom(keys: set<Name>, start: Option<Name>): set<Name> {
    match start
    case None => keys
    case Some(s) => set k | k in keys && !Less(k, s)
  }

  function Limit(limit: Option<nat>): nat {
    Min(if limit.Some? then limit.value else DEFAULT_LIMIT, MAX_LIMIT)
  }

  ghost function Collect(keys: set<Name>, startAfter: Option<Name>, limit: Option<nat>): seq<Name> {
    var range := Ascending(KeysFrom(keys, RangeStart(startAfter)));
    range[..Min(Limit(limit), |range|)]
  }

  function KeysAfter(keys: set<Name>, startAfter: Option<Name>): set<Name> {
    match startAfter
    case None => keys
    case Some(s) => set k | k in keys && Less(s, k)
  }

  lemma {:induction false} RangeIsAfter(keys: set<Name>, startAfter: Option<Name>)
    ensures KeysFrom(keys, RangeStart(startAfter)) == KeysAfter(keys, startAfter)
  {
    if startAfter.Some? {
      forall k | k in keys
        ensures Less(startAfter.value, k) <==> !Less(k, startAfter.value + [0])
      {
        ZeroByteSuccessor(startAfter.value, k);
      }
    }
  }

  /** A page holds the first names after the given one: ten unless a limit is given, never more than thirty, and fewer
      only where no more are left. */
  lemma {:induction false} PageIs(keys: set<Name>, startAfter: Option<Name>, limit: Option<nat>)
    ensures var page, left := Collect(keys, startAfter, limit), Ascending(KeysAfter(keys, startAfter));
            && page <= left
            && (limit == None ==> |page| == Min(10, |left|))
            && (limit.Some? ==> |page| == Min(Min(limit.value, 30), |left|))
  {
    RangeIsAfter(keys, startAfter);
  }

  /** What is left after a page is what comes after its last name. */
  lemma {:induction false} RestAfterPage(keys: set<Name>, n: nat)
    requires 0 < n <= |Ascending(keys)|
    ensures Ascending(KeysAfter(keys, Some(Ascending(keys)[n - 1]))) == Ascending(keys)[n..]
    ensures KeysAfter(keys, Some(Ascending(keys)[n - 1])) < keys
  {
    var s := Ascending(keys);
    AscendingEnumerates(keys);
    var last := s[n - 1];
    var rest := KeysAfter(keys, Some(last));
    LessTotal(last, last);
    assert last in s;
    AscendingEnumerates(rest);
    forall k
      ensures k in Ascending(rest) <==> k in s[n..]
    {
      if k in s[n..] {
        var i :| 0 <= i < |s[n..]| && s[n..][i] == k;
        assert s[n + i] == k && Less(last, s[n + i]);
      }
      if k in rest {
        var i :| 0 <= i < |s| && s[i] == k;
        LessTotal(last, k);
        assert i >= n;
        assert s[n..][i - n] == k;
      }
    }
    AscendingUnique(Ascending(rest), s[n..]);
  }

  /** The names a client sees that asks for page after page, each starting after the last name it got, until a
      page comes back empty. */
  ghost function AllPages(keys: set<Name>, startAfter: Option<Name>, limit: Option<nat>): seq<Name>
    requires limit.Some? ==> limit.value > 0
    decreases KeysAfter(keys, startAfter)
  {
    var page := Collect(keys, startAfter, limit);
    if page == [] then []
    else
      PageProgress(keys, startAfter, limit);
      page + AllPages(keys, Some(page[|page| - 1]), limit)
  }

  lemma {:induction false} PageProgress(keys: set<Name>, startAfter: Option<Name>, limit: Option<nat>)
    requires Collect(keys, startAfter, limit) != []
    ensures var page := Collect(keys, startAfter, limit);
            var all := Ascending(KeysAfter(keys, startAfter));
            var next := Some(page[|page| - 1]);
            && |page| <= |all| && page == all[..|page|]
            && KeysAfter(keys, next) < KeysAfter(keys, startAfter)
            && Ascending(KeysAfter(keys, next)) == all[|page|..]
  {
    RangeIsAfter(keys, startAfter);
    var page := Collect(keys, startAfter, limit);
    var after := KeysAfter(keys, startAfter);
    var last := page[|page| - 1];
    RestAfterPage(after, |page|);
    AscendingEnumerates(after);
    assert last == Ascending(after)[|page| - 1] && last in Ascending(after);
    assert KeysAfter(keys, Some(last)) == KeysAfter(after, Some(last)) by {
      forall k | k in keys && Less(last, k)
        ensures k in after
      {
        if startAfter.Some? {
          LessTransitive(startAfter.value, last, k);
        }
      }
    }
  }

  lemma SplitAt(s: seq<Name>, n: nat)
    requires n <= |s|
    ensures s == s[..n] + s[n..]
  {
  }

  lemma {:induction false} PagesFrom(keys: set<Name>, startAfter: Option<Name>, limit: Option<nat>)
    requires limit.Some? ==> limit.value > 0
    ensures AllPages(keys, startAfter, limit) == Ascending(KeysAfter(keys, startAfter))
    decreases KeysAfter(keys, startAfter)
  {
    var page := Collect(keys, startAfter, limit);
    RangeIsAfter(keys, startAfter);
    if page != [] {
      PageProgress(keys, startAfter, limit);
      PagesFrom(keys, Some(page[|page| - 1]), limit);
      SplitAt(Ascending(KeysAfter(keys, startAfter)), |page|);
    }
  }

  /** Paging is complete: with any positive limit it ends, and returns every name of the store exactly once,
      in ascending order. */
  lemma {:induction false} PagingComplete(keys: set<Name>, limit: Option<nat>)
    requires limit.Some? ==> limit.value > 0
    ensures AllPages(keys, None, limit) == Ascending(keys)
    ensures StrictlyAscending(AllPages(keys, None, limit))
    ensures forall k :: k in AllPages(keys, None, limit) <==> k in keys
  {
    PagesFrom(keys, None, limit);
    AscendingEnumerates(keys);
  }

  // ----- The listing with its views

  function ViewAll(config: Config, now: Uint64, names: map<Name, NameState>, page: seq<Name>)
    : Result<seq<(Name, NameView)>>
    requires forall n | n in page :: n in names
  {
    if page == [] then Ok([])
    else
      var first :- View(config, now, names[page[0]]);
      var rest :- ViewAll(config, now, names, page[1..]);
      Ok([(page[0], first)] + rest)
  }

  /** A page is answered exactly when each of its names can be viewed, and then in the order of the page: one name
      whose rent has passed its deposit makes the whole page abort. */
  lemma {:induction false} PageAnsweredIff(config: Config, now: Uint64, names: map<Name, NameState>, page: seq<Name>)
    requires forall n | n in page :: n in names
    ensures ViewAll(config, now, names, page).Ok? <==> forall n | n in page :: View(config, now, names[n]).Ok?
    ensures ViewAll(config, now, names, page).Ok? ==>
              var items := ViewAll(config, now, names, page).value;
              && |items| == |page|
              && forall i | 0 <= i < |page| ::
                   items[i].0 == page[i] && View(config, now, names[page[i]]) == Ok(items[i].1)
  {
    if page != [] {
      PageAnsweredIff(config, now, names, page[1..]);
      assert page == [page[0]] + page[1..];
    }
  }

  /** In particular a page lists no name that has run out, except at the very second of its expiry. */
  lemma {:induction false} ExpiredNameBlocksPage(config: Config, now: Uint64, names: map<Name, NameState>,
                                                 page: seq<Name>, name: Name)
    requires forall n | n in page :: n in names
    requires name in page && Stored(config, names[name], now)
    requires names[name].rate > 0
    requires now > names[name].beginTime + LeaseSeconds(names[name].beginDeposit, names[name].rate)
    ensures ViewAll(config, now, names, page).Err?
  {
    PageAnsweredIff(config, now, names, page);
    ViewDefinedIff(config, names[name], now);
  }
}
