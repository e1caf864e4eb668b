/**
 The activity feed's catch-up (dashboard/lib/queries/activityCatchup.ts): one page of the outbox and one
 of the vault log, each capped, merged by time and capped again.
 */
module Catchup {
  import opened Common
  import opened Channels

  /** A timestamptz of the database, in microseconds. */
  type Instant = int

  /** A row of either table, with the time the query orders and compares it by. */
  datatype Event = Outbox(at: Instant, id: nat, channel: string) | Vault(at: Instant, id: nat, outcome: string)

  /** The time as a Date has it (`getTime`): the whole milliseconds. */
  function Ms(e: Event): int {
    e.at / 1000
  }

  /** And as `toISOString` gives it back to the database: truncated to the millisecond. */
  function Truncated(e: Event): Instant {
    Ms(e) * 1000
  }

  /** Math.max(1, Math.min(500, limit)). */
  function Cap(limit: int): nat {
    var capped := if limit < 500 then limit else 500;
    if capped < 1 then 1 else capped
  }

  /** LIMIT, and `slice(0, cap)`. */
  function Take(s: seq<Event>, n: nat): seq<Event> {
    if |s| <= n then s else s[..n]
  }

  /** The rows of known channels. */
  function Known(rows: seq<Event>): seq<Event> {
    if rows == [] then []
    else (if rows[0].Outbox? && IsKnownChannel(rows[0].channel) then [rows[0]] else []) + Known(rows[1..])
  }

  /** Two streams in one by the times of their Dates, ties to the first. */
  function Merge(a: seq<Event>, b: seq<Event>): seq<Event>
    decreases |a| + |b|
  {
    if a == [] then b
    else if b == [] then a
    else if Ms(a[0]) <= Ms(b[0]) then [a[0]] + Merge(a[1..], b)
    else [b[0]] + Merge(a, b[1..])
  }

  /** What the catch-up returns, given everything after the cursor in each table. */
  function Page(outbox: seq<Event>, vault: seq<Event>, cap: nat): seq<Event> {
    Take(Merge(Known(Take(outbox, cap)), Take(vault, cap)), cap)
  }

  /** What a query for `created_at > cursor` sees of a table. */
  function LaterThan(s: seq<Event>, t: Instant): seq<Event> {
    if s == [] then [] else (if s[0].at > t then [s[0]] else []) + LaterThan(s[1..], t)
  }

  /** The rows a call sees of a table: all of them when it has no cursor. */
  function Visible(s: seq<Event>, cursor: Option<Instant>): seq<Event> {
    match cursor
    case None => s
    case Some(t) => LaterThan(s, t)
  }

  /** One call, on the whole tables. */
  function Fetch(outbox: seq<Event>, vault: seq<Event>, cursor: Option<Instant>, cap: nat): seq<Event> {
    Page(Visible(outbox, cursor), Visible(vault, cursor), cap)
  }

  /** What it is for: the first `cap` known events of the two streams together. */
  function FirstEvents(outbox: seq<Event>, vault: seq<Event>, cap: nat): seq<Event> {
    Take(Merge(Known(outbox), vault), cap)
  }

  predicate Sorted(s: seq<Event>) {
    forall i, j :: 0 <= i < j < |s| ==> s[i].at <= s[j].at
  }

  predicate MsSorted(s: seq<Event>) {
    forall i, j :: 0 <= i < j < |s| ==> Ms(s[i]) <= Ms(s[j])
  }

  predicate AllOutbox(s: seq<Event>) {
    forall i :: 0 <= i < |s| ==> s[i].Outbox?
  }

  predicate AllVault(s: seq<Event>) {
    forall i :: 0 <= i < |s| ==> s[i].Vault?
  }

  predicate Streams(outbox: seq<Event>, vault: seq<Event>) {
    Sorted(outbox) && AllOutbox(outbox) && Sorted(vault) && AllVault(vault)
  }

  // ---------------------------------------------------------------- the merge loop

  method MergePages(outbox: seq<Event>, vault: seq<Event>) returns (merged: seq<Event>)
    ensures merged == Merge(outbox, vault)
  {
    hide Merge;
    merged := [];
    var i, j := 0, 0;
    assert outbox[0..] == outbox && vault[0..] == vault && merged + Merge(outbox, vault) == Merge(outbox, vault);
    while i < |outbox| && j < |vault|
      invariant i <= |outbox| && j <= |vault|
      invariant merged + Merge(outbox[i..], vault[j..]) == Merge(outbox, vault)
      decreases |outbox| - i + |vault| - j
    {
      MergeStep(merged, outbox, vault, i, j);
      if Ms(outbox[i]) <= Ms(vault[j]) {
        merged := merged + [outbox[i]];
        i := i + 1;
      } else {
        merged := merged + [vault[j]];
        j := j + 1;
      }
    }
    MergeEmpty(outbox[i..]);
    MergeEmpty(vault[j..]);
    while i < |outbox|
      invariant i <= |outbox| && j <= |vault| && (i == |outbox| || j == |vault|)
      invariant merged + outbox[i..] + vault[j..] == Merge(outbox, vault)
    {
      assert outbox[i..] == [outbox[i]] + outbox[i + 1..];
      merged := merged + [outbox[i]];
      i := i + 1;
    }
    while j < |vault|
      invariant j <= |vault|
      invariant merged + vault[j..] == Merge(outbox, vault)
    {
      assert vault[j..] == [vault[j]] + vault[j + 1..];
      merged := merged + [vault[j]];
      j := j + 1;
    }
  }

  lemma MergeStep(done: seq<Event>, a: seq<Event>, b: seq<Event>, i: nat, j: nat)
    requires i < |a| && j < |b|
    ensures done + Merge(a[i..], b[j..]) ==
            if Ms(a[i]) <= Ms(b[j]) then done + [a[i]] + Merge(a[i + 1..], b[j..])
            else done + [b[j]] + Merge(a[i..], b[j + 1..])
  {
    assert a[i..][1..] == a[i + 1..] && b[j..][1..] == b[j + 1..];
    var left, right := Merge(a[i + 1..], b[j..]), Merge(a[i..], b[j + 1..]);
    assert done + ([a[i]] + left) == done + [a[i]] + left;
    assert done + ([b[j]] + right) == done + [b[j]] + right;
  }

  lemma MergeEmpty(a: seq<Event>)
    ensures Merge(a, []) == a && Merge([], a) == a
  {
  }

  /** One call: the two queries, the channel filter, the merge and the slice. */
  /** A limit in range is the cap; one below counts as 1, one above as 500. */
  lemma CapIs(limit: int)
    ensures 1 <= limit <= 500 ==> Cap(limit) == limit
    ensures limit < 1 ==> Cap(limit) == 1
    ensures limit > 500 ==> Cap(limit) == 500
  {
  }

  method FetchEventsAfter(outbox: seq<Event>, vault: seq<Event>, cursor: Option<Instant>, limit: int)
    returns (events: seq<Event>)
    ensures events == Fetch(outbox, vault, cursor, Cap(limit)) && |events| <= Cap(limit) <= 500
  {
    var cap := if limit < 500 then limit else 500;
    if cap < 1 {
      cap := 1;
    }
    var outboxRows, vaultRows := Take(Visible(outbox, cursor), cap), Take(Visible(vault, cursor), cap);
    var merged := MergePages(Known(outboxRows), vaultRows);
    events := Take(merged, cap);
  }

  // ---------------------------------------------------------------- order

  lemma SortedMs(s: seq<Event>)
    requires Sorted(s)
    ensures MsSorted(s)
  {
  }

  lemma {:induction false} KnownSorted(rows: seq<Event>)
    requires Sorted(rows)
    ensures Sorted(Known(rows)) && MsSorted(Known(rows)) && AllOutbox(Known(rows))
    ensures |Known(rows)| <= |rows| && forall i :: 0 <= i < |Known(rows)| ==> rows[0].at <= Known(rows)[i].at
    decreases |rows|
  {
    if rows != [] {
      assert Sorted(rows[1..]);
      KnownSorted(rows[1..]);
      hide IsKnownChannel;
      if rows[1..] != [] {
        assert rows[1..][0] == rows[1];
      }
      SortedMs(Known(rows));
    }
  }

  /** Nothing in a merge comes before the earliest of its two heads. */
  lemma {:induction false} MergeFrom(a: seq<Event>, b: seq<Event>, t: int)
    requires forall i :: 0 <= i < |a| ==> t <= Ms(a[i])
    requires forall i :: 0 <= i < |b| ==> t <= Ms(b[i])
    ensures forall i :: 0 <= i < |Merge(a, b)| ==> t <= Ms(Merge(a, b)[i])
    decreases |a| + |b|
  {
    if a != [] && b != [] {
      if Ms(a[0]) <= Ms(b[0]) {
        MergeFrom(a[1..], b, t);
      } else {
        MergeFrom(a, b[1..], t);
      }
    }
  }

  lemma {:induction false} MergeSorted(a: seq<Event>, b: seq<Event>)
    requires MsSorted(a) && MsSorted(b)
    ensures MsSorted(Merge(a, b))
    decreases |a| + |b|
  {
    if a != [] && b != [] {
      if Ms(a[0]) <= Ms(b[0]) {
        MergeSorted(a[1..], b);
        MergeFrom(a[1..], b, Ms(a[0]));
      } else {
        MergeSorted(a, b[1..]);
        MergeFrom(a, b[1..], Ms(b[0]));
      }
    }
  }

  function OutboxPart(s: seq<Event>): seq<Event> {
    if s == [] then [] else (if s[0].Outbox? then [s[0]] else []) + OutboxPart(s[1..])
  }

  function VaultPart(s: seq<Event>): seq<Event> {
    if s == [] then [] else (if s[0].Vault? then [s[0]] else []) + VaultPart(s[1..])
  }

  lemma {:induction false} PartsOfOne(s: seq<Event>)
    ensures AllOutbox(s) ==> OutboxPart(s) == s && VaultPart(s) == []
    ensures AllVault(s) ==> VaultPart(s) == s && OutboxPart(s) == []
    decreases |s|
  {
    if s != [] {
      PartsOfOne(s[1..]);
      assert s == [s[0]] + s[1..];
      PartsCons(s[0], s[1..]);
      assert forall i :: 0 <= i < |s[1..]| ==> s[1..][i] == s[i + 1];
      hide OutboxPart, VaultPart;
      if AllOutbox(s) {
        assert s[0].Outbox? && AllOutbox(s[1..]);
      }
      if AllVault(s) {
        assert s[0].Vault? && AllVault(s[1..]);
      }
    }
  }

  /** A merge is an interleaving: each stream whole and in order. */
  lemma {:induction false} MergeParts(a: seq<Event>, b: seq<Event>)
    requires AllOutbox(a) && AllVault(b)
    ensures OutboxPart(Merge(a, b)) == a && VaultPart(Merge(a, b)) == b
    decreases |a| + |b|
  {
    PartsOfOne(a);
    PartsOfOne(b);
    if a != [] && b != [] {
      hide Merge, OutboxPart, VaultPart;
      if Ms(a[0]) <= Ms(b[0]) {
        FirstGoes(a, b);
        PartsCons(a[0], Merge(a[1..], b));
        MergeParts(a[1..], b);
        assert a == [a[0]] + a[1..];
      } else {
        SecondGoes(a, b);
        PartsCons(b[0], Merge(a, b[1..]));
        MergeParts(a, b[1..]);
        assert b == [b[0]] + b[1..];
      }
    }
  }

  lemma PartsCons(e: Event, s: seq<Event>)
    ensures OutboxPart([e] + s) == (if e.Outbox? then [e] else []) + OutboxPart(s)
    ensures VaultPart([e] + s) == (if e.Vault? then [e] else []) + VaultPart(s)
  {
    assert ([e] + s)[1..] == s;
  }

  lemma FirstGoes(a: seq<Event>, b: seq<Event>)
    requires a != [] && (b == [] || Ms(a[0]) <= Ms(b[0]))
    ensures Merge(a, b) == [a[0]] + Merge(a[1..], b)
  {
    assert a == [a[0]] + a[1..];
  }

  lemma SecondGoes(a: seq<Event>, b: seq<Event>)
    requires b != [] && (a == [] || Ms(b[0]) < Ms(a[0]))
    ensures Merge(a, b) == [b[0]] + Merge(a, b[1..])
  {
    assert b == [b[0]] + b[1..];
  }

  lemma {:induction false} PartsOfPrefix(s: seq<Event>, n: nat)
    requires n <= |s|
    ensures OutboxPart(s[..n]) <= OutboxPart(s) && VaultPart(s[..n]) <= VaultPart(s)
    decreases n
  {
    if n > 0 {
      assert s[..n][0] == s[0] && s[..n][1..] == s[1..][..n - 1];
      PartsOfPrefix(s[1..], n - 1);
    }
  }

  /** In a merge, an outbox event is never behind a vault event of the same time. */
  lemma {:induction false} TiesToOutbox(a: seq<Event>, b: seq<Event>, i: nat, j: nat)
    requires AllOutbox(a) && MsSorted(a) && AllVault(b) && MsSorted(b) && i < j < |Merge(a, b)|
    requires Merge(a, b)[i].Vault? && Merge(a, b)[j].Outbox?
    ensures Ms(Merge(a, b)[i]) < Ms(Merge(a, b)[j])
    decreases |a| + |b|
  {
    if a != [] && b != [] {
      if Ms(a[0]) <= Ms(b[0]) {
        TiesToOutbox(a[1..], b, i - 1, j - 1);
      } else if i > 0 {
        TiesToOutbox(a, b[1..], i - 1, j - 1);
      } else {
        OutboxOf(a, b[1..], j - 1);
      }
    }
  }

  lemma {:induction false} OutboxOf(a: seq<Event>, b: seq<Event>, j: nat)
    requires a != [] && MsSorted(a) && AllVault(b) && j < |Merge(a, b)| && Merge(a, b)[j].Outbox?
    ensures Ms(a[0]) <= Ms(Merge(a, b)[j])
    decreases |a| + |b|
  {
    if b != [] {
      if Ms(a[0]) <= Ms(b[0]) {
        if j > 0 {
          if a[1..] != [] {
            OutboxOf(a[1..], b, j - 1);
          }
        }
      } else {
        OutboxOf(a, b[1..], j - 1);
      }
    }
  }

  lemma MsMonotone(x: Event, y: Event)
    ensures x.at <= y.at ==> Ms(x) <= Ms(y)
  {
  }

  /** What a merge puts behind its head is not earlier, unless it is a vault row of an outbox row's millisecond. */
  lemma HeadOrder(head: Event, a: seq<Event>, b: seq<Event>, y: Event)
    requires y in a || y in b
    requires forall x :: x in a ==> x.Outbox? && if head.Outbox? then head.at <= x.at else Ms(head) < Ms(x)
    requires forall x :: x in b ==> x.Vault? && if head.Vault? then head.at <= x.at else Ms(head) <= Ms(x)
    ensures head.at <= y.at || (Ms(head) == Ms(y) && head.Outbox? && y.Vault?)
  {
    hide Ms;
    MsMonotone(y, head);
  }

  /** In a merge, events out of database order are an outbox row and a vault row of one millisecond. */
  lemma {:induction false} MergeOrder(a: seq<Event>, b: seq<Event>, i: nat, j: nat)
    requires AllOutbox(a) && Sorted(a) && AllVault(b) && Sorted(b) && i < j < |Merge(a, b)|
    ensures var x, y := Merge(a, b)[i], Merge(a, b)[j];
            x.at <= y.at || (Ms(x) == Ms(y) && x.Outbox? && y.Vault?)
    decreases |a| + |b|
  {
    hide Ms, Merge;
    MergeEmpty(a);
    MergeEmpty(b);
    if a != [] && b != [] {
      SortedMs(a);
      SortedMs(b);
      if Ms(a[0]) <= Ms(b[0]) {
        FirstGoes(a, b);
        if i > 0 {
          MergeOrder(a[1..], b, i - 1, j - 1);
        } else {
          MergeIn(a[1..], b, Merge(a, b)[j]);
          HeadOrder(a[0], a[1..], b, Merge(a, b)[j]);
        }
      } else {
        SecondGoes(a, b);
        if i > 0 {
          MergeOrder(a, b[1..], i - 1, j - 1);
        } else {
          MergeIn(a, b[1..], Merge(a, b)[j]);
          HeadOrder(b[0], a, b[1..], Merge(a, b)[j]);
        }
      }
    }
  }

  /**
   In all cases: the page is ordered by millisecond, keeps each table's order, and puts the outbox first on
   ties; within a millisecond it may put an outbox row before an earlier vault row, and nothing else.
   */
  lemma {:induction false} PageOrdered(outbox: seq<Event>, vault: seq<Event>, cap: nat)
    requires Streams(outbox, vault)
    ensures var page := Page(outbox, vault, cap);
            && |page| <= cap && MsSorted(page)
            && OutboxPart(page) <= Known(Take(outbox, cap)) && VaultPart(page) <= vault
            && (forall i, j :: 0 <= i < j < |page| && page[i].Vault? && page[j].Outbox? ==> Ms(page[i]) < Ms(page[j]))
            && (forall i, j :: 0 <= i < j < |page| && page[j].at < page[i].at
                               ==> Ms(page[i]) == Ms(page[j]) && page[i].Outbox? && page[j].Vault?)
  {
    hide Ms, Known, Merge, OutboxPart, VaultPart;
    var a, b := Known(Take(outbox, cap)), Take(vault, cap);
    KnownSorted(Take(outbox, cap));
    SortedMs(b);
    MergeSorted(a, b);
    MergeParts(a, b);
    var merged := Merge(a, b);
    var page := Page(outbox, vault, cap);
    if |merged| > cap {
      PartsOfPrefix(merged, cap);
    }
    forall i, j | 0 <= i < j < |page|
      ensures page[i].Vault? && page[j].Outbox? ==> Ms(page[i]) < Ms(page[j])
      ensures page[j].at < page[i].at ==> Ms(page[i]) == Ms(page[j]) && page[i].Outbox? && page[j].Vault?
    {
      if page[i].Vault? && page[j].Outbox? {
        TiesToOutbox(a, b, i, j);
      }
      MergeOrder(a, b, i, j);
    }
  }

  // ---------------------------------------------------------------- against the full merge

  /** How many events of `b` come strictly before the millisecond `t`. */
  function Before(b: seq<Event>, t: int): nat {
    if b == [] || Ms(b[0]) >= t then 0 else 1 + Before(b[1..], t)
  }

  lemma TakeCons(e: Event, rest: seq<Event>, n: nat)
    requires n > 0
    ensures Take([e] + rest, n) == [e] + Take(rest, n - 1)
  {
  }

  /** The second stream may be cut at the cap. */
  lemma {:induction false} SecondCapped(a: seq<Event>, b: seq<Event>, k: nat, n: nat)
    requires k >= n
    ensures Take(Merge(a, Take(b, k)), n) == Take(Merge(a, b), n)
    decreases |a| + |b|
  {
    if n > 0 && b != [] && k < |b| {
      var c := Take(b, k);
      assert c[0] == b[0] && c[1..] == Take(b[1..], k - 1);
      if a == [] {
      } else if Ms(a[0]) <= Ms(b[0]) {
        TakeCons(a[0], Merge(a[1..], b), n);
        TakeCons(a[0], Merge(a[1..], c), n);
        SecondCapped(a[1..], b, k, n - 1);
      } else {
        TakeCons(b[0], Merge(a, b[1..]), n);
        TakeCons(b[0], Merge(a, c[1..]), n);
        SecondCapped(a, b[1..], k - 1, n - 1);
      }
    }
  }

  /** The first stream may be cut after `m` events exactly when its next one would come too late. */
  lemma {:induction false} FirstCutIff(a: seq<Event>, b: seq<Event>, m: nat, n: nat)
    requires m <= |a| && MsSorted(a) && AllOutbox(a) && AllVault(b)
    ensures Take(Merge(a[..m], b), n) == Take(Merge(a, b), n) <==> m == |a| || m + Before(b, Ms(a[m])) >= n
    decreases |a| + |b|
  {
    hide Merge, Take;
    var cut := a[..m];
    if m == |a| {
      assert cut == a;
    } else if n == 0 {
      TakeNone(Merge(cut, b));
      TakeNone(Merge(a, b));
    } else if b != [] && Ms(b[0]) < Ms(a[0]) {
      SecondGoes(a, b);
      SecondGoes(cut, b);
      TakeCons(b[0], Merge(a, b[1..]), n);
      TakeCons(b[0], Merge(cut, b[1..]), n);
      SameHead(b[0], Take(Merge(cut, b[1..]), n - 1), Take(Merge(a, b[1..]), n - 1));
      FirstCutIff(a, b[1..], m, n - 1);
      assert Ms(a[0]) <= Ms(a[m]);
    } else {
      FirstGoes(a, b);
      TakeCons(a[0], Merge(a[1..], b), n);
      if m == 0 {
        assert cut == [];
        MergeEmpty(b);
        TakeHead(b, n);
      } else {
        assert cut[1..] == a[1..][..m - 1] && cut[0] == a[0];
        FirstGoes(cut, b);
        TakeCons(a[0], Merge(cut[1..], b), n);
        SameHead(a[0], Take(Merge(cut[1..], b), n - 1), Take(Merge(a[1..], b), n - 1));
        FirstCutIff(a[1..], b, m - 1, n - 1);
      }
    }
  }

  lemma TakeNone(s: seq<Event>)
    ensures Take(s, 0) == []
  {
  }

  lemma TakeHead(s: seq<Event>, n: nat)
    requires n > 0
    ensures if s == [] then Take(s, n) == [] else Take(s, n) != [] && Take(s, n)[0] == s[0]
  {
  }

  lemma SameHead(e: Event, s: seq<Event>, t: seq<Event>)
    ensures [e] + s == [e] + t <==> s == t
  {
    assert ([e] + s)[1..] == s && ([e] + t)[1..] == t;
  }

  lemma {:induction false} KnownOfPrefix(rows: seq<Event>, n: nat)
    requires n <= |rows|
    ensures Known(rows[..n]) <= Known(rows)
    ensures |Known(rows[..n])| <= n
    decreases n
  {
    hide IsKnownChannel;
    if n > 0 {
      assert rows[..n][0] == rows[0] && rows[..n][1..] == rows[1..][..n - 1];
      KnownOfPrefix(rows[1..], n - 1);
    }
  }

  /**
   Exactly when the page is the first `cap` events of the full merge: unknown channels are dropped after
   LIMIT, so a page that lost some must not be missing a later known row that belongs before position
   `cap`.
   */
  lemma {:induction false} PageIsFirstEventsIff(outbox: seq<Event>, vault: seq<Event>, cap: nat)
    requires Streams(outbox, vault)
    ensures var kept := |Known(Take(outbox, cap))|;
            && kept <= |Known(outbox)|
            && (Page(outbox, vault, cap) == FirstEvents(outbox, vault, cap)
                <==> kept == |Known(outbox)| || kept + Before(vault, Ms(Known(outbox)[kept])) >= cap)
  {
    var a := Known(outbox);
    var kept := |Known(Take(outbox, cap))|;
    if |outbox| > cap {
      KnownOfPrefix(outbox, cap);
    }
    assert Known(Take(outbox, cap)) == a[..kept];
    KnownSorted(outbox);
    SecondCapped(a[..kept], vault, cap, cap);
    FirstCutIff(a, vault, kept, cap);
    hide Known, Merge, Before;
  }

  /** In particular whenever the outbox page was not full, or dropped nothing. */
  lemma {:induction false} PageIsFirstEvents(outbox: seq<Event>, vault: seq<Event>, cap: nat)
    requires Streams(outbox, vault)
    requires |outbox| <= cap || |Known(Take(outbox, cap))| == cap
    ensures Page(outbox, vault, cap) == FirstEvents(outbox, vault, cap)
  {
    PageIsFirstEventsIff(outbox, vault, cap);
    hide Known, Merge;
  }

  // ---------------------------------------------------------------- without a cursor

  /** What the comment promises when there is no cursor: the last `cap` events of the full merge. */
  function MostRecent(outbox: seq<Event>, vault: seq<Event>, cap: nat): seq<Event> {
    var full := Merge(Known(outbox), vault);
    if |full| <= cap then full else full[|full| - cap..]
  }

  /** Ids are primary keys: no table holds a row twice. */
  predicate DistinctRows(s: seq<Event>) {
    forall i, j :: 0 <= i < j < |s| ==> s[i].id != s[j].id
  }

  predicate Different(s: seq<Event>) {
    forall i, j :: 0 <= i < j < |s| ==> s[i] != s[j]
  }

  lemma {:induction false} KnownIn(rows: seq<Event>, e: Event)
    ensures e in Known(rows) ==> e in rows
    decreases |rows|
  {
    hide IsKnownChannel;
    if rows != [] {
      KnownIn(rows[1..], e);
    }
  }

  lemma {:induction false} KnownDifferent(rows: seq<Event>)
    requires Different(rows)
    ensures Different(Known(rows))
    decreases |rows|
  {
    if rows != [] {
      assert forall i :: 0 <= i < |rows[1..]| ==> rows[1..][i] == rows[i + 1];
      KnownDifferent(rows[1..]);
      KnownIn(rows[1..], rows[0]);
      assert rows[0] !in rows[1..];
      hide IsKnownChannel;
    }
  }

  lemma {:induction false} MergeIn(a: seq<Event>, b: seq<Event>, e: Event)
    ensures e in Merge(a, b) <==> e in a || e in b
    decreases |a| + |b|
  {
    if a != [] && b != [] {
      if Ms(a[0]) <= Ms(b[0]) {
        MergeIn(a[1..], b, e);
      } else {
        MergeIn(a, b[1..], e);
      }
    }
  }

  lemma {:induction false} MergeLength(a: seq<Event>, b: seq<Event>)
    ensures |Merge(a, b)| == |a| + |b|
    decreases |a| + |b|
  {
    if a != [] && b != [] {
      if Ms(a[0]) <= Ms(b[0]) {
        MergeLength(a[1..], b);
      } else {
        MergeLength(a, b[1..]);
      }
    }
  }

  lemma {:induction false} MergeDifferent(a: seq<Event>, b: seq<Event>)
    requires Different(a) && Different(b) && AllOutbox(a) && AllVault(b)
    ensures Different(Merge(a, b))
    decreases |a| + |b|
  {
    if a != [] && b != [] {
      if Ms(a[0]) <= Ms(b[0]) {
        assert forall i :: 0 <= i < |a[1..]| ==> a[1..][i] == a[i + 1];
        MergeDifferent(a[1..], b);
        MergeIn(a[1..], b, a[0]);
      } else {
        assert forall i :: 0 <= i < |b[1..]| ==> b[1..][i] == b[i + 1];
        MergeDifferent(a, b[1..]);
        MergeIn(a, b[1..], b[0]);
      }
    }
  }

  /** Streams one of which ends before the other begins simply follow each other. */
  lemma {:induction false} MergeApart(a: seq<Event>, b: seq<Event>)
    requires MsSorted(a) && (a == [] || b == [] || Ms(a[|a| - 1]) <= Ms(b[0]))
    ensures Merge(a, b) == a + b
    decreases |a|
  {
    if a != [] && b != [] {
      assert MsSorted(a[1..]);
      MergeApart(a[1..], b);
      assert a == [a[0]] + a[1..];
    }
  }

  lemma {:induction false} PartsAppend(s: seq<Event>, t: seq<Event>)
    ensures OutboxPart(s + t) == OutboxPart(s) + OutboxPart(t)
    ensures VaultPart(s + t) == VaultPart(s) + VaultPart(t)
    decreases |s|
  {
    if s == [] {
      assert s + t == t;
    } else {
      var rest := s[1..];
      PartsAppend(rest, t);
      PartsCons(s[0], rest);
      PartsCons(s[0], rest + t);
      assert s == [s[0]] + rest && s + t == [s[0]] + (rest + t);
      hide OutboxPart, VaultPart;
      AppendAppend(if s[0].Outbox? then [s[0]] else [], OutboxPart(rest), OutboxPart(t));
      AppendAppend(if s[0].Vault? then [s[0]] else [], VaultPart(rest), VaultPart(t));
    }
  }

  lemma AppendAppend(a: seq<Event>, b: seq<Event>, c: seq<Event>)
    ensures a + (b + c) == a + b + c
  {
  }

  lemma {:induction false} PartsIn(s: seq<Event>, e: Event)
    ensures e in OutboxPart(s) <==> e in s && e.Outbox?
    ensures e in VaultPart(s) <==> e in s && e.Vault?
    ensures VaultPart(s) == [] ==> AllOutbox(s)
    decreases |s|
  {
    if s != [] {
      PartsIn(s[1..], e);
    }
  }

  /** If the page's first event is the merge's first, the page is not its tail. */
  lemma FirstIsNotLate(full: seq<Event>, page: seq<Event>, cap: nat)
    requires Different(full) && |full| > cap > 0 && page != [] && page[0] == full[0]
    ensures page != full[|full| - cap..]
  {
    assert full[|full| - cap..][0] == full[|full| - cap];
  }

  lemma HeadFresh(front: seq<Event>, tail: seq<Event>)
    requires Different(front + tail) && tail != []
    ensures tail[0] !in front
  {
    assert (front + tail)[|front|] == tail[0];
    assert forall i :: 0 <= i < |front| ==> (front + tail)[i] == front[i];
  }

  /** A tail of the merge that is the beginning of the vault stream holds it whole, after everything else. */
  lemma VaultIsTail(a: seq<Event>, b: seq<Event>, cap: nat)
    requires MsSorted(a) && MsSorted(b) && AllOutbox(a) && AllVault(b) && Different(a) && Different(b)
    requires var full := Merge(a, b); 0 < cap < |full| && cap <= |b| && full[|full| - cap..] == b[..cap]
    ensures |b| == cap && (a == [] || Ms(a[|a| - 1]) <= Ms(b[0]))
  {
    hide Merge, OutboxPart, VaultPart, Different, AllOutbox, AllVault, MsSorted;
    var full := Merge(a, b);
    var front, tail := full[..|full| - cap], full[|full| - cap..];
    assert full == front + tail;
    MergeParts(a, b);
    MergeDifferent(a, b);
    MergeSorted(a, b);
    PartsAppend(front, tail);
    PartsOfVault(b, cap);
    HeadFresh(front, tail);
    NoVaultBefore(front, tail, b);
    SortedAt(full, |a|);
  }

  lemma PartsOfVault(b: seq<Event>, n: nat)
    requires AllVault(b) && n <= |b|
    ensures OutboxPart(b[..n]) == [] && VaultPart(b[..n]) == b[..n]
  {
    PartsOfOne(b[..n]);
  }

  lemma SortedAt(s: seq<Event>, i: nat)
    requires MsSorted(s)
    ensures 0 < i < |s| ==> Ms(s[i - 1]) <= Ms(s[i])
  {
  }

  lemma NoVaultBefore(front: seq<Event>, tail: seq<Event>, b: seq<Event>)
    requires tail != [] && VaultPart(front) + tail == b && tail[0] == b[0] && tail[0] !in front
    ensures b == tail && OutboxPart(front) == front
  {
    hide OutboxPart, VaultPart;
    assert VaultPart(front) == [] || b[0] == VaultPart(front)[0];
    PartsIn(front, b[0]);
    PartsOfOne(front);
  }

  /**
   Without a cursor the comment promises the most recent rows; the query reads the oldest. For all
   streams, the page is the most recent `cap` events exactly when everything fits and nothing known was
   cut off, or by accident: the outbox page held only unknown channels, and the vault has exactly `cap`
   rows, all after the known outbox rows.
   */
  lemma {:induction false} NoCursorGivesMostRecentIff(outbox: seq<Event>, vault: seq<Event>, cap: nat)
    requires Streams(outbox, vault) && DistinctRows(outbox) && DistinctRows(vault) && cap > 0
    ensures var known, kept := Known(outbox), |Known(Take(outbox, cap))|;
            Page(outbox, vault, cap) == MostRecent(outbox, vault, cap)
            <==> (kept == |known| && |known| + |vault| <= cap)
                 || (kept == 0 && |vault| == cap && (known == [] || Ms(known[|known| - 1]) <= Ms(vault[0])))
  {
    hide Known, Page, Merge;
    var known, kept := Known(outbox), |Known(Take(outbox, cap))|;
    PageOfKept(outbox, vault, cap);
    KnownSorted(outbox);
    KnownDifferent(outbox);
    hide MsSorted, AllOutbox, AllVault, DistinctRows, Different;
    KeptIsMostRecentIff(known, vault, kept, cap);
  }

  lemma KeptIsMostRecentIff(known: seq<Event>, vault: seq<Event>, kept: nat, cap: nat)
    requires MsSorted(known) && MsSorted(vault) && AllOutbox(known) && AllVault(vault)
    requires Different(known) && Different(vault) && kept <= |known| && cap > 0
    ensures var full := Merge(known, vault);
            Take(Merge(known[..kept], vault), cap) == (if |full| <= cap then full else full[|full| - cap..])
            <==> (kept == |known| && |known| + |vault| <= cap)
                 || (kept == 0 && |vault| == cap && (known == [] || Ms(known[|known| - 1]) <= Ms(vault[0])))
  {
    hide Merge, MsSorted, Different, AllOutbox, AllVault;
    var full, page := Merge(known, vault), Take(Merge(known[..kept], vault), cap);
    MergeLength(known, vault);
    MergeLength(known[..kept], vault);
    if |full| <= cap {
      assert known[..|known|] == known;
    } else if kept > 0 {
      MergeDifferent(known, vault);
      SameFirst(known, vault, kept);
      FirstIsNotLate(full, page, cap);
    } else {
      MergeEmpty(vault);
      assert known[..0] == [];
      if page == full[|full| - cap..] {
        VaultIsTail(known, vault, cap);
      }
      if |vault| == cap && (known == [] || Ms(known[|known| - 1]) <= Ms(vault[0])) {
        MergeApart(known, vault);
        assert (known + vault)[|known|..] == vault;
      }
    }
  }

  /** The page, by how many known rows the outbox query kept. */
  lemma PageOfKept(outbox: seq<Event>, vault: seq<Event>, cap: nat)
    ensures var known, kept := Known(outbox), |Known(Take(outbox, cap))|;
            && kept <= |known| && Known(Take(outbox, cap)) == known[..kept]
            && Page(outbox, vault, cap) == Take(Merge(known[..kept], vault), cap)
  {
    if |outbox| > cap {
      KnownOfPrefix(outbox, cap);
    }
    SecondCapped(Known(Take(outbox, cap)), vault, cap, cap);
    hide Known, Merge;
  }

  lemma SameFirst(a: seq<Event>, b: seq<Event>, m: nat)
    requires 0 < m <= |a|
    ensures Merge(a[..m], b) != [] && Merge(a, b) != [] && Merge(a[..m], b)[0] == Merge(a, b)[0]
  {
  }
}
