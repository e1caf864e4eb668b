/**
 Call after call of the catch-up (dashboard/lib/queries/activityCatchup.ts): the cursor is the last event's
 time cut to the millisecond, and compared with times in microseconds; and the one caller
 (dashboard/app/api/sse/activity/route.ts), which finds its cursor in the outbox alone.
 */
module CatchupPaging {
  import opened Common
  import opened Channels
  import opened Catchup

  // ---------------------------------------------------------------- the cursor

  /** The ISO timestamp of the last delivered event. */
  function Cursor(page: seq<Event>): Instant
    requires page != []
  {
    Truncated(page[|page| - 1])
  }

  lemma {:induction false} LaterIn(s: seq<Event>, t: Instant, e: Event)
    ensures e in LaterThan(s, t) <==> e in s && e.at > t
    decreases |s|
  {
    if s != [] {
      LaterIn(s[1..], t, e);
    }
  }

  lemma {:induction false} LaterLength(s: seq<Event>, t: Instant)
    ensures |LaterThan(s, t)| <= |s| && (|LaterThan(s, t)| == |s| ==> LaterThan(s, t) == s)
    decreases |s|
  {
    if s != [] {
      LaterLength(s[1..], t);
      assert s == [s[0]] + s[1..];
    }
  }

  /** Everything is later, or nothing. */
  lemma {:induction false} LaterAllOrNone(s: seq<Event>, t: Instant)
    ensures LaterThan(s, t) == s <==> forall e :: e in s ==> e.at > t
    ensures LaterThan(s, t) == [] <==> forall e :: e in s ==> e.at <= t
    decreases |s|
  {
    if s != [] {
      LaterAllOrNone(s[1..], t);
      LaterLength(s[1..], t);
      hide LaterThan;
      LaterCons(s[0], s[1..], t);
      assert s == [s[0]] + s[1..];
    }
  }

  lemma {:induction false} LaterAppend(s: seq<Event>, u: seq<Event>, t: Instant)
    ensures LaterThan(s + u, t) == LaterThan(s, t) + LaterThan(u, t)
    decreases |s|
  {
    hide LaterThan;
    if s == [] {
      assert s + u == u;
      NoneIsLater(t);
      assert [] + LaterThan(u, t) == LaterThan(u, t);
    } else {
      LaterAppend(s[1..], u, t);
      LaterCons(s[0], s[1..], t);
      LaterCons(s[0], s[1..] + u, t);
      assert s == [s[0]] + s[1..] && s + u == [s[0]] + (s[1..] + u);
      AppendAppend([s[0]], LaterThan(s[1..], t), LaterThan(u, t));
    }
  }

  lemma {:induction false} LaterLater(s: seq<Event>, t: Instant, u: Instant)
    requires t <= u
    ensures LaterThan(LaterThan(s, t), u) == LaterThan(s, u)
    decreases |s|
  {
    hide LaterThan;
    if s == [] {
      NoneIsLater(t);
      NoneIsLater(u);
    } else {
      assert s == [s[0]] + s[1..];
      LaterLater(s[1..], t, u);
      LaterCons(s[0], s[1..], t);
      LaterCons(s[0], s[1..], u);
      LaterCons(s[0], LaterThan(s[1..], t), u);
    }
  }

  lemma NoneIsLater(t: Instant)
    ensures LaterThan([], t) == []
  {
  }

  lemma LaterCons(e: Event, s: seq<Event>, t: Instant)
    ensures LaterThan([e] + s, t) == if e.at > t then [e] + LaterThan(s, t) else LaterThan(s, t)
  {
    assert ([e] + s)[1..] == s;
  }

  /** On a sorted table, what is later begins no earlier. */
  lemma LaterHead(s: seq<Event>, t: Instant)
    requires Sorted(s) && s != []
    ensures LaterThan(s, t) == [] || Ms(s[0]) <= Ms(LaterThan(s, t)[0])
  {
    if LaterThan(s, t) != [] {
      LaterIn(s, t, LaterThan(s, t)[0]);
    }
  }

  /** Filtering by database time commutes with the merge by millisecond. */
  lemma {:induction false} LaterCommutes(a: seq<Event>, b: seq<Event>, t: Instant)
    requires Sorted(a) && Sorted(b)
    ensures LaterThan(Merge(a, b), t) == Merge(LaterThan(a, t), LaterThan(b, t))
    decreases |a| + |b|
  {
    hide Merge, LaterThan, Ms;
    if a == [] || b == [] {
      MergeEmpty(a + b);
      assert a + b == if a == [] then b else a;
      MergeEmpty(LaterThan(a, t));
      MergeEmpty(LaterThan(b, t));
      NoneIsLater(t);
    } else if Ms(a[0]) <= Ms(b[0]) {
      SortedTail(a);
      LaterCommutes(a[1..], b, t);
      FirstGoes(a, b);
      LaterCons(a[0], Merge(a[1..], b), t);
      LaterCons(a[0], a[1..], t);
      assert a == [a[0]] + a[1..];
      if a[0].at > t {
        LaterHead(b, t);
        ConsFirst(a[0], LaterThan(a[1..], t), LaterThan(b, t));
      }
    } else {
      SortedTail(b);
      LaterCommutes(a, b[1..], t);
      SecondGoes(a, b);
      LaterCons(b[0], Merge(a, b[1..]), t);
      LaterCons(b[0], b[1..], t);
      assert b == [b[0]] + b[1..];
      if b[0].at > t {
        LaterHead(a, t);
        ConsSecond(LaterThan(a, t), b[0], LaterThan(b[1..], t));
      }
    }
  }

  lemma SortedTail(s: seq<Event>)
    requires Sorted(s) && s != []
    ensures Sorted(s[1..])
  {
  }

  lemma ConsFirst(e: Event, a: seq<Event>, b: seq<Event>)
    requires b == [] || Ms(e) <= Ms(b[0])
    ensures Merge([e] + a, b) == [e] + Merge(a, b)
  {
    assert ([e] + a)[1..] == a;
    FirstGoes([e] + a, b);
  }

  lemma ConsSecond(a: seq<Event>, e: Event, b: seq<Event>)
    requires a == [] || Ms(e) < Ms(a[0])
    ensures Merge(a, [e] + b) == [e] + Merge(a, b)
  {
    assert ([e] + b)[1..] == b;
    SecondGoes(a, [e] + b);
  }

  lemma KnownCons(e: Event, s: seq<Event>)
    ensures Known([e] + s) == (if e.Outbox? && IsKnownChannel(e.channel) then [e] else []) + Known(s)
  {
    assert ([e] + s)[1..] == s;
  }

  lemma {:induction false} KnownLater(rows: seq<Event>, t: Instant)
    ensures Known(LaterThan(rows, t)) == LaterThan(Known(rows), t)
    decreases |rows|
  {
    hide Known, LaterThan, IsKnownChannel;
    if rows == [] {
      NoneIsLater(t);
      NoneIsKnown();
    } else {
      var e, rest := rows[0], rows[1..];
      assert rows == [e] + rest;
      KnownLater(rest, t);
      KnownCons(e, rest);
      LaterCons(e, rest, t);
      KnownCons(e, LaterThan(rest, t));
      LaterCons(e, Known(rest), t);
      assert [] + Known(rest) == Known(rest) && [] + Known(LaterThan(rest, t)) == Known(LaterThan(rest, t));
    }
  }

  lemma NoneIsKnown()
    ensures Known([]) == []
  {
  }

  lemma {:induction false} LaterSorted(s: seq<Event>, t: Instant)
    requires Sorted(s)
    ensures Sorted(LaterThan(s, t))
    decreases |s|
  {
    hide LaterThan;
    if s == [] {
      NoneIsLater(t);
    } else {
      var rest := LaterThan(s[1..], t);
      assert s == [s[0]] + s[1..];
      LaterSorted(s[1..], t);
      LaterCons(s[0], s[1..], t);
      forall i | 0 <= i < |rest|
        ensures s[0].at <= rest[i].at
      {
        LaterIn(s[1..], t, rest[i]);
      }
    }
  }

  lemma LaterOfTable(s: seq<Event>, t: Instant)
    ensures AllOutbox(s) ==> AllOutbox(LaterThan(s, t))
    ensures AllVault(s) ==> AllVault(LaterThan(s, t))
  {
    var rest := LaterThan(s, t);
    forall i | 0 <= i < |rest|
      ensures rest[i] in s
    {
      LaterIn(s, t, rest[i]);
    }
  }

  /** Everything after the cursor, as the merge puts it. */
  function Full(outbox: seq<Event>, vault: seq<Event>): seq<Event> {
    Merge(Known(outbox), vault)
  }

  lemma LaterFull(outbox: seq<Event>, vault: seq<Event>, t: Instant)
    requires Streams(outbox, vault)
    ensures Streams(LaterThan(outbox, t), LaterThan(vault, t))
    ensures Full(LaterThan(outbox, t), LaterThan(vault, t)) == LaterThan(Full(outbox, vault), t)
  {
    LaterSorted(outbox, t);
    LaterSorted(vault, t);
    LaterOfTable(outbox, t);
    LaterOfTable(vault, t);
    KnownSorted(outbox);
    KnownLater(outbox, t);
    LaterCommutes(Known(outbox), vault, t);
  }

  // ---------------------------------------------------------------- one call and the next

  /** No known row cut off by the outbox limit belongs before the page's end. */
  predicate InOrder(outbox: seq<Event>, vault: seq<Event>, cap: nat) {
    var known, kept := Known(outbox), |Known(Take(outbox, cap))|;
    kept >= |known| || kept + Before(vault, Ms(known[kept])) >= |Page(outbox, vault, cap)|
  }

  /** In each table, the first row that is not on the page is later than the cursor. */
  predicate LosesNothing(outbox: seq<Event>, vault: seq<Event>, cap: nat)
    requires Page(outbox, vault, cap) != []
  {
    var known, page := Known(outbox), Page(outbox, vault, cap);
    var p, q := |OutboxPart(page)|, |VaultPart(page)|;
    && (p >= |known| || known[p].at > Cursor(page))
    && (q >= |vault| || vault[q].at > Cursor(page))
  }

  /** No row of the page is later than the cursor: those of the last millisecond are at its beginning. */
  predicate RepeatsNothing(outbox: seq<Event>, vault: seq<Event>, cap: nat)
    requires Page(outbox, vault, cap) != []
  {
    var page := Page(outbox, vault, cap);
    forall e :: e in page ==> e.at <= Cursor(page)
  }

  /** The page is a prefix of the full merge exactly when no cut-off row belongs before its end. */
  lemma PagePrefixIff(outbox: seq<Event>, vault: seq<Event>, cap: nat)
    requires Streams(outbox, vault)
    ensures |Page(outbox, vault, cap)| <= |Full(outbox, vault)|
    ensures Page(outbox, vault, cap) <= Full(outbox, vault) <==> InOrder(outbox, vault, cap)
  {
    var known, kept, page := Known(outbox), |Known(Take(outbox, cap))|, Page(outbox, vault, cap);
    PageOfKept(outbox, vault, cap);
    KnownSorted(outbox);
    FirstCutIff(known, vault, kept, |page|);
    MergeLength(known, vault);
    MergeLength(known[..kept], vault);
    hide Known, Merge, Before, Page;
    assert page == Take(Merge(known[..kept], vault), |page|);
    assert page <= Full(outbox, vault) <==> page == Take(Full(outbox, vault), |page|);
  }

  /** Of each table, the page holds the first known rows. */
  lemma PageParts(outbox: seq<Event>, vault: seq<Event>, cap: nat)
    requires Streams(outbox, vault)
    ensures var page := Page(outbox, vault, cap);
            && OutboxPart(page) <= Known(outbox) && VaultPart(page) <= vault
            && MsSorted(page) && |page| <= cap
  {
    PageOrdered(outbox, vault, cap);
    PageOfKept(outbox, vault, cap);
    hide *;
    PrefixOfPrefix(OutboxPart(Page(outbox, vault, cap)), Known(Take(outbox, cap)), Known(outbox));
  }

  lemma PrefixOfPrefix(a: seq<Event>, b: seq<Event>, c: seq<Event>)
    requires a <= b && |b| <= |c| && b == c[..|b|]
    ensures a <= c
  {
  }

  lemma InFull(outbox: seq<Event>, vault: seq<Event>, e: Event)
    ensures e in Full(outbox, vault) <==> e in Known(outbox) || e in vault
  {
    MergeIn(Known(outbox), vault, e);
  }

  /**
   An event of the full merge is lost to all later calls, if this one does not deliver it, exactly when it
   is not later than the page's truncated cursor; and the events of a page that the next call's queries
   select again are exactly those that are.
   */
  lemma LostOrAgain(outbox: seq<Event>, vault: seq<Event>, cap: nat, e: Event)
    requires Streams(outbox, vault) && Page(outbox, vault, cap) != [] && e in Full(outbox, vault)
    ensures var t := Cursor(Page(outbox, vault, cap));
            e in Full(LaterThan(outbox, t), LaterThan(vault, t)) <==> e.at > t
  {
    var t := Cursor(Page(outbox, vault, cap));
    LaterFull(outbox, vault, t);
    LaterIn(Full(outbox, vault), t, e);
  }

  /** Of a table in order: every row is among the first `p` or later than `t` iff the next one is. */
  lemma RowsOff(s: seq<Event>, p: nat, t: Instant)
    requires Sorted(s) && Different(s) && p <= |s|
    ensures (forall e :: e in s ==> e in s[..p] || e.at > t) <==> p == |s| || s[p].at > t
  {
    if p < |s| {
      assert s[p] in s && s[p] !in s[..p];
      forall e | e in s && s[p].at > t
        ensures e in s[..p] || e.at > t
      {
        var i :| 0 <= i < |s| && s[i] == e;
        assert i < p ==> s[..p][i] == e;
      }
    } else {
      assert s[..p] == s;
    }
  }

  /** With distinct rows: this page and the later calls lose nothing iff the first rows off the page are later. */
  lemma NothingLostIff(outbox: seq<Event>, vault: seq<Event>, cap: nat)
    requires Streams(outbox, vault) && DistinctRows(outbox) && DistinctRows(vault)
    requires Page(outbox, vault, cap) != []
    ensures var page := Page(outbox, vault, cap); var t := Cursor(page);
            (forall e :: e in Full(outbox, vault)
                         ==> e in page || e in Full(LaterThan(outbox, t), LaterThan(vault, t)))
            <==> LosesNothing(outbox, vault, cap)
  {
    hide Known, Page, Full, LaterThan, OutboxPart, VaultPart, Cursor;
    var known, page := Known(outbox), Page(outbox, vault, cap);
    var t := Cursor(page);
    var p, q := |OutboxPart(page)|, |VaultPart(page)|;
    PageParts(outbox, vault, cap);
    KnownSorted(outbox);
    KnownDifferent(outbox);
    RowsOff(known, p, t);
    RowsOff(vault, q, t);
    forall e
      ensures e in Full(outbox, vault) <==> e in known || e in vault
      ensures e in Full(outbox, vault) ==> (e in Full(LaterThan(outbox, t), LaterThan(vault, t)) <==> e.at > t)
      ensures e in page <==> e in known[..p] || e in vault[..q]
      ensures e in known ==> e.Outbox?
      ensures e in vault ==> e.Vault?
    {
      InFull(outbox, vault, e);
      PartsIn(page, e);
      assert OutboxPart(page) == known[..p] && VaultPart(page) == vault[..q];
      if e in Full(outbox, vault) {
        LostOrAgain(outbox, vault, cap, e);
      }
    }
    assert forall e :: e in known[..p] ==> e in known;
    assert forall e :: e in vault[..q] ==> e in vault;
  }

  /** The full merge after a prefix: the rest of each table. */
  lemma RestParts(page: seq<Event>, rest: seq<Event>, known: seq<Event>, vault: seq<Event>)
    requires OutboxPart(page + rest) == known && VaultPart(page + rest) == vault
    ensures OutboxPart(page) <= known && VaultPart(page) <= vault
    ensures OutboxPart(rest) == known[|OutboxPart(page)|..] && VaultPart(rest) == vault[|VaultPart(page)|..]
  {
    PartsAppend(page, rest);
  }

  lemma LaterFromFirst(s: seq<Event>, p: nat, t: Instant)
    requires Sorted(s) && p <= |s|
    ensures (forall e :: e in s[p..] ==> e.at > t) <==> p == |s| || s[p].at > t
  {
    if p < |s| {
      assert s[p..][0] == s[p];
    }
  }

  /** What follows a prefix of the full merge is all later than `t` iff the first of each table is. */
  lemma RestLaterIff(page: seq<Event>, rest: seq<Event>, known: seq<Event>, vault: seq<Event>, t: Instant)
    requires OutboxPart(page + rest) == known && VaultPart(page + rest) == vault && Sorted(known) && Sorted(vault)
    ensures var p, q := |OutboxPart(page)|, |VaultPart(page)|;
            LaterThan(rest, t) == rest <==> (p >= |known| || known[p].at > t) && (q >= |vault| || vault[q].at > t)
  {
    hide OutboxPart, VaultPart, LaterThan;
    var p, q := |OutboxPart(page)|, |VaultPart(page)|;
    RestParts(page, rest, known, vault);
    LaterFromFirst(known, p, t);
    LaterFromFirst(vault, q, t);
    LaterAllOrNone(rest, t);
    forall e
      ensures e in rest <==> e in known[p..] || e in vault[q..]
    {
      PartsIn(rest, e);
    }
  }

  /** If the later events of the page and of the rest make up the rest, the page has none. */
  lemma OnlyRest(page: seq<Event>, rest: seq<Event>, t: Instant)
    ensures LaterThan(page, t) + LaterThan(rest, t) == rest <==> LaterThan(page, t) == [] && LaterThan(rest, t) == rest
  {
    hide LaterThan;
    var again, later := LaterThan(page, t), LaterThan(rest, t);
    if again + later == rest {
      forall e | e in rest
        ensures e.at > t
      {
        LaterIn(page, t, e);
        LaterIn(rest, t, e);
      }
      LaterAllOrNone(rest, t);
      assert |again| == 0;
    }
    if again == [] {
      assert again + later == later;
    }
  }

  /**
   The next page, of the code's own two queries and its truncated cursor: a page followed by everything
   the next call can still see is the full merge exactly when no cut-off row belongs before the page's
   end, none is lost and none comes twice.
   */
  lemma NextPageContinuesIff(outbox: seq<Event>, vault: seq<Event>, cap: nat)
    requires Streams(outbox, vault) && Page(outbox, vault, cap) != []
    ensures var page := Page(outbox, vault, cap); var t := Cursor(page);
            page + Full(LaterThan(outbox, t), LaterThan(vault, t)) == Full(outbox, vault)
            <==> InOrder(outbox, vault, cap) && LosesNothing(outbox, vault, cap) && RepeatsNothing(outbox, vault, cap)
  {
    hide Known, Page, Full, LaterThan, OutboxPart, VaultPart, Cursor, InOrder;
    var page, full := Page(outbox, vault, cap), Full(outbox, vault);
    var t := Cursor(page);
    LaterFull(outbox, vault, t);
    PagePrefixIff(outbox, vault, cap);
    if page <= full {
      var rest := full[|page|..];
      assert full == page + rest;
      FullParts(outbox, vault);
      LaterAppend(page, rest, t);
      LaterAllOrNone(page, t);
      RestLaterIff(page, rest, Known(outbox), vault, t);
      OnlyRest(page, rest, t);
      SamePrefix(page, LaterThan(full, t), rest);
    }
  }

  lemma SamePrefix(page: seq<Event>, a: seq<Event>, b: seq<Event>)
    ensures page + a == page + b <==> a == b
  {
    assert (page + a)[|page|..] == a && (page + b)[|page|..] == b;
  }

  lemma FullParts(outbox: seq<Event>, vault: seq<Event>)
    requires Streams(outbox, vault)
    ensures OutboxPart(Full(outbox, vault)) == Known(outbox) && VaultPart(Full(outbox, vault)) == vault
    ensures Sorted(Known(outbox)) && MsSorted(Full(outbox, vault))
  {
    KnownSorted(outbox);
    MergeParts(Known(outbox), vault);
    SortedMs(vault);
    MergeSorted(Known(outbox), vault);
  }

  lemma TakePrefix(s: seq<Event>, u: seq<Event>, n: nat)
    requires u <= s && |u| <= n
    ensures u <= Take(s, n) && Take(s, |u|) == u
  {
  }

  lemma LaterPrefix(s: seq<Event>, u: seq<Event>, t: Instant)
    requires u <= s
    ensures LaterThan(u, t) <= LaterThan(s, t)
  {
    assert s == u + s[|u|..];
    LaterAppend(u, s[|u|..], t);
  }

  /** The next outbox query still returns what it returned of the rows after the cursor. */
  lemma KeptLater(outbox: seq<Event>, cap: nat, t: Instant)
    ensures LaterThan(Known(Take(outbox, cap)), t) <= Known(Take(LaterThan(outbox, t), cap))
  {
    hide Known, LaterThan;
    var first, next := Take(outbox, cap), LaterThan(outbox, t);
    LaterPrefix(outbox, first, t);
    LaterLength(first, t);
    KnownLater(first, t);
    var again := LaterThan(first, t);
    TakePrefix(next, again, cap);
    assert again == Take(next, cap)[..|again|];
    KnownOfPrefix(Take(next, cap), |again|);
  }

  /** A cut after the first `m` that loses none of the first `r` events loses none either where the stream ends later. */
  lemma LaterCut(a: seq<Event>, b: seq<Event>, m: nat, k: nat, r: nat)
    requires m <= k <= |a| && MsSorted(a) && AllOutbox(a) && AllVault(b)
    requires Take(Merge(a[..m], b), r) == Take(Merge(a, b), r)
    ensures Take(Merge(a[..k], b), r) == Take(Merge(a, b), r)
  {
    hide Merge, Take;
    FirstCutIff(a, b, m, r);
    assert a[..k][..m] == a[..m];
    FirstCutIff(a[..k], b, m, r);
    if m == k {
    } else {
      assert a[..k][m] == a[m];
    }
  }

  /**
   What comes twice, when nothing cut off belongs on the page: exactly the page's events later than the
   cursor, in the same order, at the head of the next page.
   */
  lemma RepeatsFirst(outbox: seq<Event>, vault: seq<Event>, cap: nat)
    requires Streams(outbox, vault) && Page(outbox, vault, cap) != [] && InOrder(outbox, vault, cap)
    ensures var page := Page(outbox, vault, cap); var t := Cursor(page);
            LaterThan(page, t) <= Page(LaterThan(outbox, t), LaterThan(vault, t), cap)
  {
    hide Known, Page, Merge, LaterThan, Cursor, InOrder, Take, Sorted, MsSorted, AllOutbox, AllVault;
    var page, known, kept := Page(outbox, vault, cap), Known(outbox), |Known(Take(outbox, cap))|;
    var t := Cursor(page);
    var outbox', vault' := LaterThan(outbox, t), LaterThan(vault, t);
    var known', kept' := Known(outbox'), |Known(Take(outbox', cap))|;
    PageOfKept(outbox, vault, cap);
    PageOfKept(outbox', vault', cap);
    var again, again' := LaterThan(page, t), LaterThan(known[..kept], t);
    PagePrefixIff(outbox, vault, cap);
    LaterFull(outbox, vault, t);
    KnownSorted(outbox);
    KnownSorted(outbox');
    KnownLater(outbox, t);
    KeptLater(outbox, cap, t);
    LaterLength(page, t);
    PageParts(outbox, vault, cap);
    SortedPrefix(known, kept);
    // the page's later events begin both the full merge to come and its part from the rows already kept
    LaterPrefix(Full(outbox, vault), page, t);
    TakeIsPrefix(Merge(known[..kept], vault), cap);
    LaterPrefix(Merge(known[..kept], vault), page, t);
    LaterCommutes(known[..kept], vault, t);
    LaterPrefix(known, known[..kept], t);
    assert again' == known'[..|again'|];
    TakePrefix(Merge(known', vault'), again, cap);
    TakePrefix(Merge(again', vault'), again, cap);
    LaterCut(known', vault', |again'|, kept', |again|);
    TakeMore(Merge(known'[..kept'], vault'), |again|, cap);
  }

  lemma SortedPrefix(s: seq<Event>, n: nat)
    requires Sorted(s) && n <= |s|
    ensures Sorted(s[..n])
  {
  }

  lemma TakeIsPrefix(s: seq<Event>, n: nat)
    ensures Take(s, n) <= s
  {
  }

  lemma TakeMore(s: seq<Event>, m: nat, n: nat)
    requires m <= n
    ensures Take(s, m) <= Take(s, n)
  {
  }

  /** And what is lost is then only what ties with the cursor: the events off the page that are exactly at it. */
  lemma OnlyTiesLost(outbox: seq<Event>, vault: seq<Event>, cap: nat, i: nat)
    requires Streams(outbox, vault) && Page(outbox, vault, cap) != [] && InOrder(outbox, vault, cap)
    requires |Page(outbox, vault, cap)| <= i < |Full(outbox, vault)|
    ensures var t, e := Cursor(Page(outbox, vault, cap)), Full(outbox, vault)[i];
            e in Full(LaterThan(outbox, t), LaterThan(vault, t)) <==> e.at != t
  {
    hide Known, Page, Full, LaterThan, InOrder;
    var page, full := Page(outbox, vault, cap), Full(outbox, vault);
    PagePrefixIff(outbox, vault, cap);
    FullParts(outbox, vault);
    LostOrAgain(outbox, vault, cap, full[i]);
    assert full[|page| - 1] == page[|page| - 1];
    assert Ms(full[|page| - 1]) <= Ms(full[i]);
  }

  // ---------------------------------------------------------------- call after call

  /** The cursor moves to the page's last event, if there is one. */
  function NextCursor(cursor: Option<Instant>, page: seq<Event>): Option<Instant> {
    if page == [] then cursor else Some(Cursor(page))
  }

  /** The page of the call after `n` others, on the whole tables, each with the cursor the one before left. */
  function FetchAt(outbox: seq<Event>, vault: seq<Event>, cursor: Option<Instant>, cap: nat, n: nat): seq<Event>
    decreases n
  {
    var page := Fetch(outbox, vault, cursor, cap);
    if n == 0 then page else FetchAt(outbox, vault, NextCursor(cursor, page), cap, n - 1)
  }

  /** The same, each call on what is left of the tables after the one before. */
  function PageAt(outbox: seq<Event>, vault: seq<Event>, cap: nat, n: nat): seq<Event>
    decreases n
  {
    var page := Page(outbox, vault, cap);
    if n == 0 || page == [] then page
    else PageAt(LaterThan(outbox, Cursor(page)), LaterThan(vault, Cursor(page)), cap, n - 1)
  }

  /** What `n` calls deliver in all. */
  function Delivered(outbox: seq<Event>, vault: seq<Event>, cap: nat, n: nat): seq<Event>
    decreases n
  {
    var page := Page(outbox, vault, cap);
    if n == 0 || page == [] then []
    else page + Delivered(LaterThan(outbox, Cursor(page)), LaterThan(vault, Cursor(page)), cap, n - 1)
  }

  lemma {:induction false} DeliveredIsPages(outbox: seq<Event>, vault: seq<Event>, cap: nat, n: nat)
    ensures Delivered(outbox, vault, cap, n + 1) == Delivered(outbox, vault, cap, n) + PageAt(outbox, vault, cap, n)
    decreases n
  {
    hide Page, LaterThan, Cursor;
    var page := Page(outbox, vault, cap);
    if page != [] && n > 0 {
      DeliveredIsPages(LaterThan(outbox, Cursor(page)), LaterThan(vault, Cursor(page)), cap, n - 1);
    }
  }

  lemma InPage(outbox: seq<Event>, vault: seq<Event>, cap: nat, e: Event)
    ensures e in Page(outbox, vault, cap) ==> e in Full(outbox, vault)
  {
    hide Known, Merge;
    PageOfKept(outbox, vault, cap);
    var known, kept := Known(outbox), |Known(Take(outbox, cap))|;
    MergeIn(known[..kept], vault, e);
    MergeIn(known, vault, e);
    assert e in known[..kept] ==> e in known;
  }

  lemma InTables(outbox: seq<Event>, vault: seq<Event>, e: Event)
    ensures e in Full(outbox, vault) ==> e in outbox || e in vault
  {
    InFull(outbox, vault, e);
    KnownIn(outbox, e);
  }

  /** A cursor the code makes is a whole millisecond, and never goes back. */
  lemma CursorAdvances(outbox: seq<Event>, vault: seq<Event>, cursor: Instant, cap: nat)
    requires cursor % 1000 == 0 && Fetch(outbox, vault, Some(cursor), cap) != []
    ensures cursor <= Cursor(Fetch(outbox, vault, Some(cursor), cap))
  {
    hide Page, LaterThan;
    var page := Fetch(outbox, vault, Some(cursor), cap);
    var last := page[|page| - 1];
    InPage(LaterThan(outbox, cursor), LaterThan(vault, cursor), cap, last);
    InTables(LaterThan(outbox, cursor), LaterThan(vault, cursor), last);
    LaterIn(outbox, cursor, last);
    LaterIn(vault, cursor, last);
  }

  /** Asking the whole tables with a moving cursor is paging through what is left of them. */
  lemma {:induction false} FetchAtIsPageAt(outbox: seq<Event>, vault: seq<Event>, cursor: Option<Instant>, cap: nat, n: nat)
    requires cursor.Some? ==> cursor.value % 1000 == 0
    ensures FetchAt(outbox, vault, cursor, cap, n) ==
            if cursor.None? then PageAt(outbox, vault, cap, n)
            else PageAt(LaterThan(outbox, cursor.value), LaterThan(vault, cursor.value), cap, n)
    decreases n
  {
    hide Page, LaterThan;
    var page := Fetch(outbox, vault, cursor, cap);
    if n > 0 {
      FetchAtIsPageAt(outbox, vault, NextCursor(cursor, page), cap, n - 1);
      if page != [] && cursor.Some? {
        CursorAdvances(outbox, vault, cursor.value, cap);
        LaterLater(outbox, cursor.value, Cursor(page));
        LaterLater(vault, cursor.value, Cursor(page));
      }
    }
  }

  // ---------------------------------------------------------------- when paging ends

  /** Nothing visible is at or before the page's cursor: the next call sees the same rows again. */
  predicate Stuck(outbox: seq<Event>, vault: seq<Event>, cap: nat)
    requires Page(outbox, vault, cap) != []
  {
    var t := Cursor(Page(outbox, vault, cap));
    (outbox == [] || outbox[0].at > t) && (vault == [] || vault[0].at > t)
  }

  lemma LaterOrFewer(s: seq<Event>, t: Instant)
    requires Sorted(s)
    ensures if s == [] || s[0].at > t then LaterThan(s, t) == s else |LaterThan(s, t)| < |s|
  {
    hide LaterThan;
    LaterLength(s, t);
    LaterAllOrNone(s, t);
    LaterFromFirst(s, 0, t);
    assert s[0..] == s;
  }

  lemma StuckOrFewer(outbox: seq<Event>, vault: seq<Event>, cap: nat)
    requires Streams(outbox, vault) && Page(outbox, vault, cap) != []
    ensures var t := Cursor(Page(outbox, vault, cap));
            if Stuck(outbox, vault, cap) then LaterThan(outbox, t) == outbox && LaterThan(vault, t) == vault
            else |LaterThan(outbox, t)| + |LaterThan(vault, t)| < |outbox| + |vault|
  {
    hide Page, LaterThan, Cursor;
    var t := Cursor(Page(outbox, vault, cap));
    LaterOrFewer(outbox, t);
    LaterOrFewer(vault, t);
    LaterLength(outbox, t);
    LaterLength(vault, t);
  }

  /** A stuck page is every page from then on. */
  lemma {:induction false} StuckForever(outbox: seq<Event>, vault: seq<Event>, cap: nat, n: nat)
    requires Streams(outbox, vault) && Page(outbox, vault, cap) != [] && Stuck(outbox, vault, cap)
    ensures PageAt(outbox, vault, cap, n) == Page(outbox, vault, cap)
    ensures forall e :: e in Delivered(outbox, vault, cap, n) ==> e in Page(outbox, vault, cap)
    decreases n
  {
    hide Page, LaterThan, Cursor, Stuck, Streams;
    StuckOrFewer(outbox, vault, cap);
    if n > 0 {
      StuckForever(outbox, vault, cap, n - 1);
    }
  }

  /** No page on the way to an empty one is stuck. */
  predicate Ends(outbox: seq<Event>, vault: seq<Event>, cap: nat)
    requires Streams(outbox, vault)
    decreases |outbox| + |vault|
  {
    var page := Page(outbox, vault, cap);
    if page == [] then true
    else if Stuck(outbox, vault, cap) then false
    else
      var t := Cursor(page);
      LaterFull(outbox, vault, t);
      StuckOrFewer(outbox, vault, cap);
      Ends(LaterThan(outbox, t), LaterThan(vault, t), cap)
  }

  /** After as many calls as there are rows, paging has ended, or one page comes for ever. */
  lemma {:induction false} PagingEndsIff(outbox: seq<Event>, vault: seq<Event>, cap: nat, n: nat)
    requires Streams(outbox, vault) && n >= |outbox| + |vault|
    ensures PageAt(outbox, vault, cap, n) == [] <==> Ends(outbox, vault, cap)
    ensures PageAt(outbox, vault, cap, n + 1) == PageAt(outbox, vault, cap, n)
    decreases n
  {
    hide Page, LaterThan, Stuck, Streams;
    var page := Page(outbox, vault, cap);
    if page != [] {
      var t := Cursor(page);
      LaterFull(outbox, vault, t);
      StuckOrFewer(outbox, vault, cap);
      if Stuck(outbox, vault, cap) {
        StuckForever(outbox, vault, cap, n);
        StuckForever(outbox, vault, cap, n + 1);
      } else {
        PagingEndsIff(LaterThan(outbox, t), LaterThan(vault, t), cap, n - 1);
      }
    }
  }

  // ---------------------------------------------------------------- and when every channel is known

  predicate AllKnown(rows: seq<Event>) {
    forall e :: e in rows ==> e.Outbox? && IsKnownChannel(e.channel)
  }

  lemma {:induction false} KnownIsAll(rows: seq<Event>)
    requires AllKnown(rows)
    ensures Known(rows) == rows
    decreases |rows|
  {
    hide IsKnownChannel;
    if rows != [] {
      KnownIsAll(rows[1..]);
      assert rows == [rows[0]] + rows[1..];
    }
  }

  /** How many events of millisecond `k` are past its beginning. */
  function Past(s: seq<Event>, k: int): nat {
    if s == [] then 0 else (if Ms(s[0]) == k && s[0].at > Truncated(s[0]) then 1 else 0) + Past(s[1..], k)
  }

  /** The newest event is on a whole millisecond, and no millisecond has a page or more past its beginning. */
  ghost predicate Settles(s: seq<Event>, cap: nat) {
    && (s == [] || exists e :: e in s && IsNewestWhole(s, e))
    && forall k :: Past(s, k) < cap
  }

  predicate IsNewestWhole(s: seq<Event>, e: Event) {
    forall x :: x in s ==> x.at <= Truncated(e)
  }

  lemma {:induction false} PastAppend(s: seq<Event>, u: seq<Event>, k: int)
    ensures Past(s + u, k) == Past(s, k) + Past(u, k) && Past(s, k) <= |s|
    decreases |s|
  {
    if s == [] {
      assert s + u == u;
    } else {
      assert (s + u)[1..] == s[1..] + u;
      PastAppend(s[1..], u, k);
    }
  }

  lemma {:induction false} PastAllOrNone(s: seq<Event>, k: int)
    ensures (forall e :: e in s ==> Ms(e) == k && e.at > Truncated(e)) ==> Past(s, k) == |s|
    ensures (forall e :: e in s ==> Ms(e) != k) ==> Past(s, k) == 0
    decreases |s|
  {
    if s != [] {
      PastAllOrNone(s[1..], k);
      hide Past;
      PastCons(s, k);
    }
  }

  lemma PastCons(s: seq<Event>, k: int)
    requires s != []
    ensures Past(s, k) == (if Ms(s[0]) == k && s[0].at > Truncated(s[0]) then 1 else 0) + Past(s[1..], k)
  {
  }

  lemma {:induction false} PastLater(s: seq<Event>, m: int, k: int)
    ensures Past(LaterThan(s, m * 1000), k) == if k < m then 0 else Past(s, k)
    decreases |s|
  {
    hide Past, LaterThan;
    var t := m * 1000;
    if s == [] {
      NoneIsLater(t);
      PastAllOrNone(s, k);
    } else {
      PastLater(s[1..], m, k);
      LaterCons(s[0], s[1..], t);
      assert s == [s[0]] + s[1..];
      PastCons(s, k);
      if s[0].at > t {
        var later := [s[0]] + LaterThan(s[1..], t);
        assert later[1..] == LaterThan(s[1..], t);
        PastCons(later, k);
      }
    }
  }

  lemma StuckNotSettled(full: seq<Event>, cap: nat)
    requires MsSorted(full) && full != [] && cap > 0
    requires forall e :: e in full ==> e.at > Cursor(Take(full, cap))
    ensures !Settles(full, cap)
  {
    hide Past, MsSorted;
    var page := Take(full, cap);
    var k := Ms(page[|page| - 1]);
    if |full| <= cap {
      forall e | e in full
        ensures !IsNewestWhole(full, e)
      {
        EndIsLast(full, |full|, e);
      }
    } else {
      forall e | e in page
        ensures Ms(e) == k && e.at > Truncated(e)
      {
        EndIsLast(full, cap, e);
        assert e in full;
      }
      PastAllOrNone(page, k);
      PastAppend(page, full[cap..], k);
      assert full == page + full[cap..];
    }
  }

  lemma EndIsLast(full: seq<Event>, n: nat, e: Event)
    requires MsSorted(full) && 0 < n <= |full| && e in full[..n]
    ensures Ms(e) <= Ms(full[n - 1])
  {
  }

  lemma SettlesLater(full: seq<Event>, cap: nat)
    requires MsSorted(full) && full != [] && cap > 0
    ensures Settles(full, cap) <==> Settles(LaterThan(full, Cursor(Take(full, cap))), cap)
  {
    hide Past, LaterThan, MsSorted;
    var page := Take(full, cap);
    var last := page[|page| - 1];
    var t, later := Truncated(last), LaterThan(full, Truncated(last));
    forall k
      ensures Past(later, k) == if k < Ms(last) then 0 else Past(full, k)
      ensures k < Ms(last) ==> Past(full, k) < cap
    {
      PastLater(full, Ms(last), k);
      if k < Ms(last) {
        PastBeforeLast(full, |page|, k);
      }
    }
    NewestLater(full, last);
  }

  lemma PastBeforeLast(full: seq<Event>, n: nat, k: int)
    requires MsSorted(full) && 0 < n <= |full| && k < Ms(full[n - 1])
    ensures Past(full, k) < n
  {
    hide Past;
    var front, rest := full[..n - 1], full[n - 1..];
    assert full == front + rest;
    PastAppend(front, rest, k);
    PastAllOrNone(rest, k);
  }

  lemma TruncatedBelow(e: Event, k: Event)
    ensures Truncated(e) <= e.at && (e.at >= Truncated(k) ==> Truncated(e) >= Truncated(k))
  {
  }

  lemma NewestOfLater(full: seq<Event>, last: Event, e: Event)
    requires e in LaterThan(full, Truncated(last)) && IsNewestWhole(LaterThan(full, Truncated(last)), e)
    ensures e in full && IsNewestWhole(full, e)
  {
    hide LaterThan, Truncated;
    LaterIn(full, Truncated(last), e);
    TruncatedBelow(e, last);
    forall x | x in full
      ensures x.at <= Truncated(e)
    {
      LaterIn(full, Truncated(last), x);
    }
  }

  lemma NewestOfFull(full: seq<Event>, last: Event, e: Event)
    requires e in full && IsNewestWhole(full, e) && LaterThan(full, Truncated(last)) != []
    ensures e in LaterThan(full, Truncated(last)) && IsNewestWhole(LaterThan(full, Truncated(last)), e)
  {
    hide LaterThan, Truncated;
    var later := LaterThan(full, Truncated(last));
    LaterIn(full, Truncated(last), later[0]);
    LaterIn(full, Truncated(last), e);
    TruncatedBelow(e, last);
    forall x | x in later
      ensures x.at <= Truncated(e)
    {
      LaterIn(full, Truncated(last), x);
    }
  }

  lemma NewestLater(full: seq<Event>, last: Event)
    requires last in full
    ensures (exists e :: e in full && IsNewestWhole(full, e))
            <==> var later := LaterThan(full, Truncated(last));
                 later == [] || exists e :: e in later && IsNewestWhole(later, e)
  {
    hide LaterThan, Truncated, IsNewestWhole;
    var later := LaterThan(full, Truncated(last));
    if later == [] {
      NewestIsLast(full, last);
    } else if e :| e in later && IsNewestWhole(later, e) {
      NewestOfLater(full, last, e);
    } else if e :| e in full && IsNewestWhole(full, e) {
      NewestOfFull(full, last, e);
    }
  }

  lemma NewestIsLast(full: seq<Event>, last: Event)
    requires LaterThan(full, Truncated(last)) == []
    ensures IsNewestWhole(full, last)
  {
    hide LaterThan;
    LaterAllOrNone(full, Truncated(last));
  }

  /**
   Exactly when paging ends, if every channel is known: the newest event is on a whole millisecond and
   no millisecond has a page's worth of events past its beginning.
   */
  lemma {:induction false} KnownPagingEndsIff(outbox: seq<Event>, vault: seq<Event>, cap: nat)
    requires Streams(outbox, vault) && AllKnown(outbox) && cap > 0
    ensures Ends(outbox, vault, cap) <==> Settles(Full(outbox, vault), cap)
    decreases |outbox| + |vault|
  {
    hide Page, Full, LaterThan, Settles, Stuck, Cursor, Streams, AllKnown;
    var page, full := Page(outbox, vault, cap), Full(outbox, vault);
    KnownPage(outbox, vault, cap);
    FullParts(outbox, vault);
    if page == [] {
      NothingSettles(cap);
    } else {
      var t := Cursor(page);
      LaterFull(outbox, vault, t);
      StuckOrFewer(outbox, vault, cap);
      if Stuck(outbox, vault, cap) {
        StuckFull(outbox, vault, cap);
        StuckNotSettled(full, cap);
      } else {
        LaterKnown(outbox, t);
        KnownPagingEndsIff(LaterThan(outbox, t), LaterThan(vault, t), cap);
        SettlesLater(full, cap);
      }
    }
  }

  lemma NothingSettles(cap: nat)
    requires cap > 0
    ensures Settles([], cap)
  {
  }

  lemma StuckFull(outbox: seq<Event>, vault: seq<Event>, cap: nat)
    requires Streams(outbox, vault) && Page(outbox, vault, cap) != [] && Stuck(outbox, vault, cap)
    ensures forall e :: e in Full(outbox, vault) ==> e.at > Cursor(Page(outbox, vault, cap))
  {
    hide Page, Full, Cursor;
    forall e | e in Full(outbox, vault)
      ensures e.at > Cursor(Page(outbox, vault, cap))
    {
      InTables(outbox, vault, e);
    }
  }

  lemma LaterKnown(outbox: seq<Event>, t: Instant)
    requires AllKnown(outbox)
    ensures AllKnown(LaterThan(outbox, t))
  {
    hide IsKnownChannel, LaterThan;
    forall e | e in LaterThan(outbox, t)
      ensures e in outbox
    {
      LaterIn(outbox, t, e);
    }
  }

  lemma KnownPage(outbox: seq<Event>, vault: seq<Event>, cap: nat)
    requires Streams(outbox, vault) && AllKnown(outbox) && cap > 0
    ensures Page(outbox, vault, cap) == Take(Full(outbox, vault), cap)
    ensures Page(outbox, vault, cap) == [] <==> Full(outbox, vault) == []
  {
    hide Known, Merge, IsKnownChannel;
    KnownIsAll(Take(outbox, cap));
    PageIsFirstEvents(outbox, vault, cap);
  }

  /** Whatever the channels: a vault row later than every row's truncated time is delivered on and on. */
  lemma {:induction false} NewestNeverEnds(outbox: seq<Event>, vault: seq<Event>, cap: nat, v: Event, n: nat)
    requires Streams(outbox, vault) && cap > 0 && v in vault
    requires forall e :: e in outbox || e in vault ==> Truncated(e) < v.at
    ensures PageAt(outbox, vault, cap, n) != []
    decreases n
  {
    hide Page, LaterThan, Truncated, Streams;
    EmptyPageIff(outbox, vault, cap);
    var page := Page(outbox, vault, cap);
    if n > 0 {
      var t, last := Cursor(page), page[|page| - 1];
      InPage(outbox, vault, cap, last);
      InTables(outbox, vault, last);
      LaterFull(outbox, vault, t);
      forall e
        ensures e in LaterThan(outbox, t) ==> e in outbox
        ensures e in LaterThan(vault, t) <==> e in vault && e.at > t
      {
        LaterIn(outbox, t, e);
        LaterIn(vault, t, e);
      }
      NewestNeverEnds(LaterThan(outbox, t), LaterThan(vault, t), cap, v, n - 1);
    }
  }

  /** A page is empty, and the cursor stays where it is, exactly when its outbox rows are all unknown and the vault is quiet. */
  lemma EmptyPageIff(outbox: seq<Event>, vault: seq<Event>, cap: nat)
    requires cap > 0
    ensures Page(outbox, vault, cap) == [] <==> Known(Take(outbox, cap)) == [] && vault == []
  {
    PageOfKept(outbox, vault, cap);
    var known, kept := Known(outbox), |Known(Take(outbox, cap))|;
    MergeLength(known[..kept], vault);
  }

  // ---------------------------------------------------------------- what is delivered in all

  /** The cursor passes the page's first event, which is not later. */
  lemma FewerLater(outbox: seq<Event>, vault: seq<Event>, cap: nat)
    requires Streams(outbox, vault) && Page(outbox, vault, cap) != [] && RepeatsNothing(outbox, vault, cap)
    ensures var t := Cursor(Page(outbox, vault, cap));
            |LaterThan(outbox, t)| + |LaterThan(vault, t)| < |outbox| + |vault|
  {
    hide Page, LaterThan, Cursor;
    var page := Page(outbox, vault, cap);
    InPage(outbox, vault, cap, page[0]);
    InTables(outbox, vault, page[0]);
    StuckOrFewer(outbox, vault, cap);
  }

  /** Every page along the way is in order, loses nothing and repeats nothing, and none stays behind the last. */
  predicate DeliversOnce(outbox: seq<Event>, vault: seq<Event>, cap: nat)
    requires Streams(outbox, vault)
    decreases |outbox| + |vault|
  {
    var page := Page(outbox, vault, cap);
    if page == [] then Full(outbox, vault) == []
    else if InOrder(outbox, vault, cap) && LosesNothing(outbox, vault, cap) && RepeatsNothing(outbox, vault, cap) then
      var t := Cursor(page);
      LaterFull(outbox, vault, t);
      FewerLater(outbox, vault, cap);
      DeliversOnce(LaterThan(outbox, t), LaterThan(vault, t), cap)
    else false
  }

  lemma {:induction false} DeliveredIn(outbox: seq<Event>, vault: seq<Event>, cap: nat, n: nat, e: Event)
    requires Streams(outbox, vault)
    ensures e in Delivered(outbox, vault, cap, n) ==> e in Full(outbox, vault)
    decreases n
  {
    hide Page, Full, LaterThan, Streams;
    var page := Page(outbox, vault, cap);
    InPage(outbox, vault, cap, e);
    if page != [] && n > 0 {
      var t := Cursor(page);
      LaterFull(outbox, vault, t);
      LaterIn(Full(outbox, vault), t, e);
      DeliveredIn(LaterThan(outbox, t), LaterThan(vault, t), cap, n - 1, e);
    }
  }

  lemma FullDifferent(outbox: seq<Event>, vault: seq<Event>)
    requires Streams(outbox, vault) && DistinctRows(outbox) && DistinctRows(vault)
    ensures Different(Full(outbox, vault))
  {
    KnownSorted(outbox);
    KnownDifferent(outbox);
    hide Known, Merge;
    MergeDifferent(Known(outbox), vault);
  }

  lemma {:induction false} LaterDistinct(s: seq<Event>, t: Instant)
    requires DistinctRows(s)
    ensures DistinctRows(LaterThan(s, t))
    decreases |s|
  {
    if s != [] {
      var rest := LaterThan(s[1..], t);
      assert forall i :: 0 <= i < |s[1..]| ==> s[1..][i] == s[i + 1];
      LaterDistinct(s[1..], t);
      forall i | 0 <= i < |rest|
        ensures rest[i] in s[1..]
      {
        LaterIn(s[1..], t, rest[i]);
      }
    }
  }

  /** A page that begins the full merge and repeats one of its events at the next call repeats it in what is delivered. */
  lemma RepeatedTwice(outbox: seq<Event>, vault: seq<Event>, cap: nat, n: nat)
    requires Streams(outbox, vault) && Page(outbox, vault, cap) != [] && n >= 2
    requires InOrder(outbox, vault, cap) && !RepeatsNothing(outbox, vault, cap)
    ensures !Different(Delivered(outbox, vault, cap, n))
  {
    hide Page, LaterThan, Cursor, Streams, InOrder;
    var page := Page(outbox, vault, cap);
    var t := Cursor(page);
    var outbox', vault' := LaterThan(outbox, t), LaterThan(vault, t);
    RepeatsFirst(outbox, vault, cap);
    LaterAllOrNone(page, t);
    var again, next := LaterThan(page, t), Page(outbox', vault', cap);
    assert again != [] && next[0] == again[0];
    LaterIn(page, t, again[0]);
    var rest := Delivered(outbox', vault', cap, n - 1);
    assert rest[0] == next[0];
    var i :| 0 <= i < |page| && page[i] == again[0];
    assert (page + rest)[i] == (page + rest)[|page|];
  }

  /** What follows a page in what is delivered, when that is the full merge, is what is left to deliver. */
  lemma RestIsLater(page: seq<Event>, rest: seq<Event>, t: Instant)
    requires (forall e :: e in page ==> e.at <= t) && (forall e :: e in rest ==> e.at > t)
    ensures LaterThan(page + rest, t) == rest
  {
    hide LaterThan;
    LaterAppend(page, rest, t);
    LaterAllOrNone(page, t);
    LaterAllOrNone(rest, t);
    assert [] + rest == rest;
  }

  /**
   Over a whole catch-up of distinct rows: however often it asks, past the number of rows, a client has
   received every known event, in order and once, exactly when every page along the way continues as it
   should and none stays behind the last.
   */
  lemma {:induction false} DrainDeliversAllIff(outbox: seq<Event>, vault: seq<Event>, cap: nat, n: nat)
    requires Streams(outbox, vault) && DistinctRows(outbox) && DistinctRows(vault) && n > |outbox| + |vault|
    ensures Delivered(outbox, vault, cap, n) == Full(outbox, vault) <==> DeliversOnce(outbox, vault, cap)
    decreases n
  {
    hide Page, Full, LaterThan, Cursor, Streams, DistinctRows, InOrder, LosesNothing, RepeatsNothing, Different;
    var page, full := Page(outbox, vault, cap), Full(outbox, vault);
    if page != [] {
      var t := Cursor(page);
      var outbox', vault' := LaterThan(outbox, t), LaterThan(vault, t);
      var rest := Delivered(outbox', vault', cap, n - 1);
      assert Delivered(outbox, vault, cap, n) == page + rest;
      PagePrefixIff(outbox, vault, cap);
      FullDifferent(outbox, vault);
      NextPageContinuesIff(outbox, vault, cap);
      if RepeatsNothing(outbox, vault, cap) {
        LaterFull(outbox, vault, t);
        FewerLater(outbox, vault, cap);
        LaterDistinct(outbox, t);
        LaterDistinct(vault, t);
        DrainDeliversAllIff(outbox', vault', cap, n - 1);
        if page + rest == full {
          NotRepeated(outbox, vault, cap);
          RestLater(outbox, vault, cap, t, n - 1);
          RestIsLater(page, rest, t);
        }
      } else if page + rest == full {
        NonEmpty(outbox, vault, cap);
        RepeatedTwice(outbox, vault, cap, n);
      }
    }
  }

  lemma NotRepeated(outbox: seq<Event>, vault: seq<Event>, cap: nat)
    requires Page(outbox, vault, cap) != [] && RepeatsNothing(outbox, vault, cap)
    ensures forall e :: e in Page(outbox, vault, cap) ==> e.at <= Cursor(Page(outbox, vault, cap))
  {
  }

  lemma NonEmpty(outbox: seq<Event>, vault: seq<Event>, cap: nat)
    requires Page(outbox, vault, cap) != []
    ensures |outbox| + |vault| > 0
  {
    var page := Page(outbox, vault, cap);
    hide Page;
    InPage(outbox, vault, cap, page[0]);
    InTables(outbox, vault, page[0]);
  }

  lemma RestLater(outbox: seq<Event>, vault: seq<Event>, cap: nat, t: Instant, n: nat)
    requires Streams(outbox, vault)
    ensures forall e :: e in Delivered(LaterThan(outbox, t), LaterThan(vault, t), cap, n) ==> e.at > t
  {
    hide Full, LaterThan, Streams, Delivered;
    LaterFull(outbox, vault, t);
    forall e | e in Delivered(LaterThan(outbox, t), LaterThan(vault, t), cap, n)
      ensures e.at > t
    {
      DeliveredIn(LaterThan(outbox, t), LaterThan(vault, t), cap, n, e);
      LaterIn(Full(outbox, vault), t, e);
    }
  }

  /**
   How an event is missed: before a page has it, the paging ends, a stuck page comes for ever, or the
   cursor passes it.
   */
  predicate Missed(outbox: seq<Event>, vault: seq<Event>, cap: nat, e: Event)
    requires Streams(outbox, vault)
    decreases |outbox| + |vault|
  {
    var page := Page(outbox, vault, cap);
    if e in page then false
    else if page == [] || Stuck(outbox, vault, cap) || e.at <= Cursor(page) then true
    else
      var t := Cursor(page);
      LaterFull(outbox, vault, t);
      StuckOrFewer(outbox, vault, cap);
      Missed(LaterThan(outbox, t), LaterThan(vault, t), cap, e)
  }

  /** An event is never delivered, however often a client asks, exactly when it is missed in one of those ways. */
  lemma {:induction false} NeverDeliveredIff(outbox: seq<Event>, vault: seq<Event>, cap: nat, e: Event, n: nat)
    requires Streams(outbox, vault) && n >= |outbox| + |vault|
    ensures e !in Delivered(outbox, vault, cap, n) <==> Missed(outbox, vault, cap, e)
    decreases n
  {
    hide Page, LaterThan, Stuck, Cursor, Streams;
    var page := Page(outbox, vault, cap);
    if page != [] {
      NonEmpty(outbox, vault, cap);
      var t := Cursor(page);
      LaterFull(outbox, vault, t);
      StuckOrFewer(outbox, vault, cap);
      RestLater(outbox, vault, cap, t, n - 1);
      if Stuck(outbox, vault, cap) {
        StuckForever(outbox, vault, cap, n);
      } else {
        NeverDeliveredIff(LaterThan(outbox, t), LaterThan(vault, t), cap, e, n - 1);
      }
    }
  }

  // ---------------------------------------------------------------- the one caller

  /** The cursor for a Last-Event-ID, which is looked for in the outbox alone; without one, or for an id not there, none. */
  function CursorForEventId(outbox: seq<Event>, lastEventId: Option<nat>): Option<Instant> {
    if lastEventId.None? || outbox == [] then None
    else if outbox[0].id == lastEventId.value then Some(Truncated(outbox[0]))
    else CursorForEventId(outbox[1..], lastEventId)
  }

  /** The catch-up of one connection. */
  function Connect(outbox: seq<Event>, vault: seq<Event>, lastEventId: Option<nat>): seq<Event> {
    Fetch(outbox, vault, CursorForEventId(outbox, lastEventId), 200)
  }

  /** A first connection, or one whose last event is not in the outbox, gets the oldest two hundred; any other those after its cursor. */
  lemma ConnectionIs(outbox: seq<Event>, vault: seq<Event>, lastEventId: Option<nat>)
    ensures var cursor := CursorForEventId(outbox, lastEventId);
            Connect(outbox, vault, lastEventId) ==
            if cursor.None? then Page(outbox, vault, 200)
            else Page(LaterThan(outbox, cursor.value), LaterThan(vault, cursor.value), 200)
  {
    hide Page, LaterThan, CursorForEventId;
  }

  function LastEventId(before: Option<nat>, page: seq<Event>): Option<nat> {
    if page == [] then before else Some(page[|page| - 1].id)
  }

  /** The catch-up of the connection after `n` others, each reconnecting after the last event it was sent. */
  function ConnectAt(outbox: seq<Event>, vault: seq<Event>, lastEventId: Option<nat>, n: nat): seq<Event>
    decreases n
  {
    var page := Connect(outbox, vault, lastEventId);
    if n == 0 then page else ConnectAt(outbox, vault, LastEventId(lastEventId, page), n - 1)
  }

  lemma {:induction false} CursorForRow(outbox: seq<Event>, i: nat)
    requires DistinctRows(outbox) && i < |outbox|
    ensures CursorForEventId(outbox, Some(outbox[i].id)) == Some(Truncated(outbox[i]))
    decreases i
  {
    if i > 0 {
      assert forall k :: 0 <= k < |outbox[1..]| ==> outbox[1..][k] == outbox[k + 1];
      CursorForRow(outbox[1..], i - 1);
    }
  }

  lemma {:induction false} CursorForOther(outbox: seq<Event>, id: nat)
    requires forall o :: o in outbox ==> o.id != id
    ensures CursorForEventId(outbox, Some(id)) == None
    decreases |outbox|
  {
    if outbox != [] {
      CursorForOther(outbox[1..], id);
    }
  }

  /** Ids are not shared between the two tables. */
  predicate Apart(outbox: seq<Event>, vault: seq<Event>) {
    forall o, v :: o in outbox && v in vault ==> o.id != v.id
  }

  /** A reconnection has the page's cursor exactly when the page ends in an outbox row; after a vault row it has none. */
  lemma ReconnectCursorIff(outbox: seq<Event>, vault: seq<Event>, before: Option<nat>)
    requires Streams(outbox, vault) && DistinctRows(outbox) && Apart(outbox, vault)
    requires Connect(outbox, vault, before) != []
    ensures var page := Connect(outbox, vault, before);
            CursorForEventId(outbox, LastEventId(before, page))
            == if page[|page| - 1].Outbox? then NextCursor(None, page) else None
  {
    hide Page, LaterThan, Known, Streams, DistinctRows, CursorForEventId;
    var cursor, page := CursorForEventId(outbox, before), Connect(outbox, vault, before);
    var last := page[|page| - 1];
    InPage(Visible(outbox, cursor), Visible(vault, cursor), 200, last);
    InTables(Visible(outbox, cursor), Visible(vault, cursor), last);
    if cursor.Some? {
      LaterIn(outbox, cursor.value, last);
      LaterIn(vault, cursor.value, last);
    }
    TableOf(outbox, vault, last);
    if last in outbox {
      var i :| 0 <= i < |outbox| && outbox[i] == last;
      CursorForRow(outbox, i);
    } else {
      CursorForOther(outbox, last.id);
    }
  }

  lemma TableOf(outbox: seq<Event>, vault: seq<Event>, e: Event)
    requires Streams(outbox, vault) && (e in outbox || e in vault)
    ensures e in outbox <==> e.Outbox?
  {
  }

  lemma {:induction false} ConnectsAppend(outbox: seq<Event>, vault: seq<Event>, before: Option<nat>, m: nat, i: nat)
    requires ConnectAt(outbox, vault, before, m) != []
    ensures ConnectAt(outbox, vault, before, m + 1 + i)
            == ConnectAt(outbox, vault, LastEventId(None, ConnectAt(outbox, vault, before, m)), i)
    decreases m
  {
    hide Fetch, CursorForEventId;
    if m > 0 {
      ConnectsAppend(outbox, vault, LastEventId(before, Connect(outbox, vault, before)), m - 1, i);
    }
  }

  lemma {:induction false} SameConnects(outbox: seq<Event>, vault: seq<Event>, before: Option<nat>, i: nat)
    requires CursorForEventId(outbox, before) == None
    ensures ConnectAt(outbox, vault, before, i) == ConnectAt(outbox, vault, None, i)
    decreases i
  {
    hide Fetch;
    if i > 0 && Connect(outbox, vault, None) == [] {
      SameConnects(outbox, vault, before, i - 1);
    }
  }

  /** Catch-up over connections goes round in a circle once one ends in a vault row: the next begins with the oldest again. */
  lemma {:induction false} VaultRowRestarts(outbox: seq<Event>, vault: seq<Event>, m: nat, i: nat)
    requires Streams(outbox, vault) && DistinctRows(outbox) && Apart(outbox, vault)
    requires var page := ConnectAt(outbox, vault, None, m); page != [] && page[|page| - 1].Vault?
    ensures ConnectAt(outbox, vault, None, m + 1 + i) == ConnectAt(outbox, vault, None, i)
  {
    hide Fetch, CursorForEventId, Connect, Streams, DistinctRows, Apart;
    var page := ConnectAt(outbox, vault, None, m);
    ConnectsAppend(outbox, vault, None, m, i);
    LastOfConnect(outbox, vault, None, m);
    SameConnects(outbox, vault, LastEventId(None, page), i);
  }

  lemma {:induction false} LastOfConnect(outbox: seq<Event>, vault: seq<Event>, before: Option<nat>, m: nat)
    requires Streams(outbox, vault) && DistinctRows(outbox) && Apart(outbox, vault)
    requires var page := ConnectAt(outbox, vault, before, m); page != [] && page[|page| - 1].Vault?
    ensures CursorForEventId(outbox, LastEventId(None, ConnectAt(outbox, vault, before, m))) == None
    decreases m
  {
    hide Fetch, CursorForEventId, Connect, Streams, DistinctRows, Apart;
    var page := Connect(outbox, vault, before);
    if m == 0 {
      ReconnectCursorIff(outbox, vault, before);
    } else {
      LastOfConnect(outbox, vault, LastEventId(before, page), m - 1);
    }
  }

  // ---------------------------------------------------------------- inputs that show it

  /** Rows 200 and 700 microseconds into one millisecond, pages of one: the first comes for ever, the second never. */
  lemma SameMillisecondStalls(channel: string, n: nat)
    requires IsKnownChannel(channel)
    ensures var first, second := Outbox(200, 1, channel), Outbox(700, 2, channel); var outbox := [first, second];
            && Full(outbox, []) == [first, second]
            && PageAt(outbox, [], 1, n) == [first]
            && second !in Delivered(outbox, [], 1, n)
  {
    var first, second := Outbox(200, 1, channel), Outbox(700, 2, channel);
    var outbox := [first, second];
    TwoKnown(first, second);
    assert Page(outbox, [], 1) == [first] && Cursor([first]) == 0;
    StuckForever(outbox, [], 1, n);
  }

  lemma TwoKnown(first: Event, second: Event)
    requires first.Outbox? && second.Outbox? && IsKnownChannel(first.channel) && IsKnownChannel(second.channel)
    ensures Known([first]) == [first] && Known([first, second]) == [first, second]
  {
    hide IsKnownChannel;
    assert [first, second][1..] == [second] && [second][1..] == [] && [first][1..] == [];
    assert Known([second]) == [second];
  }

  lemma UnknownThenKnown(unknown: Event, known: Event)
    requires unknown.Outbox? && known.Outbox? && !IsKnownChannel(unknown.channel) && IsKnownChannel(known.channel)
    ensures Known([unknown]) == [] && Known([unknown, known]) == [known]
  {
    hide IsKnownChannel;
    TwoKnown(known, known);
    assert [unknown, known][1..] == [known] && [unknown][1..] == [];
    NoneIsKnown();
  }

  /** A single row anywhere but at the beginning of its millisecond is delivered on every call. */
  lemma SingleRowForEver(e: Event, cap: nat, n: nat)
    requires e.Outbox? && IsKnownChannel(e.channel) && e.at != Truncated(e) && cap > 0
    ensures PageAt([e], [], cap, n) == [e]
  {
    TwoKnown(e, e);
    assert Page([e], [], cap) == [e];
    StuckForever([e], [], cap, n);
  }

  /**
   A known row never delivered: behind an unknown one at the page limit, it is overtaken by a vault row,
   whose truncated time is the cursor that passes it.
   */
  lemma RowLostForGood(unknown: Event, known: Event, v: Event, n: nat)
    requires unknown.Outbox? && known.Outbox? && v.Vault? && unknown.at <= known.at <= Truncated(v)
    requires !IsKnownChannel(unknown.channel) && IsKnownChannel(known.channel)
    ensures Full([unknown, known], [v]) == [known, v] && !InOrder([unknown, known], [v], 1)
    ensures known !in Delivered([unknown, known], [v], 1, n)
  {
    hide IsKnownChannel;
    var outbox := [unknown, known];
    assert outbox[..1] == [unknown];
    UnknownThenKnown(unknown, known);
    MergeEmpty([v]);
    FirstGoes([known], [v]);
    assert Page(outbox, [v], 1) == [v];
    PagePrefixIff(outbox, [v], 1);
    hide Page, Delivered;
    LostRow(outbox, [v], 1, known, n);
  }

  lemma LostRow(outbox: seq<Event>, vault: seq<Event>, cap: nat, e: Event, n: nat)
    requires Streams(outbox, vault) && Page(outbox, vault, cap) != []
    requires e !in Page(outbox, vault, cap) && e.at <= Cursor(Page(outbox, vault, cap))
    ensures e !in Delivered(outbox, vault, cap, n)
  {
    hide Page, LaterThan, Cursor, Streams;
    if n > 0 {
      RestLater(outbox, vault, cap, Cursor(Page(outbox, vault, cap)), n - 1);
    }
  }

  lemma ShortPage(unknown: Event, first: Event, second: Event)
    requires unknown.Outbox? && first.Outbox? && second.Outbox?
    requires !IsKnownChannel(unknown.channel) && IsKnownChannel(first.channel) && IsKnownChannel(second.channel)
    ensures var outbox := [unknown, first, second];
            && Known(outbox) == [first, second] && Full(outbox, []) == [first, second]
            && Page(outbox, [], 2) == [first] && FirstEvents(outbox, [], 2) == [first, second]
  {
    hide IsKnownChannel;
    var outbox := [unknown, first, second];
    assert outbox[1..] == [first, second];
    assert outbox[..2] == [unknown, first];
    TwoKnown(first, second);
    UnknownThenKnown(unknown, first);
    MergeEmpty([first]);
    MergeEmpty([first, second]);
    hide Merge;
  }

  /** A page may be short of the first `cap` events and still lose nothing: the next page picks them up. */
  lemma ShortPageContinues(unknown: Event, first: Event, second: Event)
    requires unknown.Outbox? && first.Outbox? && second.Outbox? && unknown.at <= first.at < second.at
    requires !IsKnownChannel(unknown.channel) && IsKnownChannel(first.channel) && IsKnownChannel(second.channel)
    ensures var outbox := [unknown, first, second];
            && Page(outbox, [], 2) == [first] && FirstEvents(outbox, [], 2) == [first, second]
            && InOrder(outbox, [], 2) && LosesNothing(outbox, [], 2)
            && (RepeatsNothing(outbox, [], 2) <==> first.at == Truncated(first))
  {
    hide IsKnownChannel, Known, Page, Full, Merge, FirstEvents, InOrder, OutboxPart, VaultPart, Truncated;
    ShortPage(unknown, first, second);
    PagePrefixIff([unknown, first, second], [], 2);
    PartsOfOne([first]);
    TruncatedBelow(first, first);
    assert first in [first];
  }

  /** Out of the merge's order though nothing is lost and nothing comes twice: the cut-off row follows the vault row. */
  lemma OnlyOutOfOrder(unknown: Event, known: Event, v: Event)
    requires unknown.Outbox? && known.Outbox? && v.Vault? && unknown.at <= v.at == Truncated(v) < known.at
    requires Ms(known) == Ms(v) && !IsKnownChannel(unknown.channel) && IsKnownChannel(known.channel)
    ensures Page([unknown, known], [v], 1) == [v] && Full([unknown, known], [v]) == [known, v]
    ensures LosesNothing([unknown, known], [v], 1) && RepeatsNothing([unknown, known], [v], 1)
    ensures !InOrder([unknown, known], [v], 1)
  {
    hide IsKnownChannel;
    var outbox := [unknown, known];
    assert outbox[..1] == [unknown];
    UnknownThenKnown(unknown, known);
    MergeEmpty([v]);
    FirstGoes([known], [v]);
    assert Page(outbox, [v], 1) == [v];
    PagePrefixIff(outbox, [v], 1);
    PartsOfOne([v]);
  }

  /** Paging ends at an all-unknown page with a quiet vault, and every known row behind it is never delivered. */
  lemma UnknownPageStalls(outbox: seq<Event>, cap: nat, n: nat)
    requires Streams(outbox, []) && cap > 0 && Known(Take(outbox, cap)) == []
    ensures PageAt(outbox, [], cap, n) == [] && Delivered(outbox, [], cap, n) == []
    ensures DeliversOnce(outbox, [], cap) <==> Known(outbox) == []
  {
    EmptyPageIff(outbox, [], cap);
    MergeEmpty(Known(outbox));
  }
}
