/**
 The replay-protection table over whole runs: generation under a cap, single-use consumption, pruning.

 Two machines are driven by the same events: the table as it is, and a specification that never deletes a row.
 */
module Nonces {
  import opened Numerals
  import opened Sizes

  datatype Row = Row(used: bool, created: int)

  /** `pending` generators have passed the cap's count and not yet inserted. */
  datatype State = State(table: map<string, Row>, pending: nat, now: int)

  datatype Config = Config(ttl: int, cap: int)

  datatype Event =
    | Tick(elapsed: nat)
    | CountRows
    | Insert(value: string)
    | Consume(value: string)
    | Prune

  predicate Accepts(c: Config, s: State, value: string) {
    value in s.table && !s.table[value].used && s.table[value].created >= s.now - c.ttl
  }

  function Pruned(c: Config, s: State): map<string, Row> {
    map v | v in s.table && s.table[v].created >= s.now - c.ttl :: s.table[v]
  }

  function Apply(c: Config, s: State, e: Event): State {
    match e
    case Tick(elapsed) => s.(now := s.now + elapsed)
    case CountRows => if c.cap > 0 && |s.table| >= c.cap then s else s.(pending := s.pending + 1)
    case Insert(value) =>
      s.(table := s.table[value := Row(false, s.now)], pending := if s.pending > 0 then s.pending - 1 else 0)
    case Consume(value) =>
      if Accepts(c, s, value) then s.(table := s.table[value := s.table[value].(used := true)]) else s
    case Prune => s.(table := Pruned(c, s))
  }

  /** The same event on a table that is never pruned. */
  function ApplyUnpruned(c: Config, s: State, e: Event): State {
    if e.Prune? then s else Apply(c, s, e)
  }

  function Initial(now: int): State {
    State(map[], 0, now)
  }

  /** Inserts follow a count, and a fresh random value was never issued before. */
  ghost predicate Legal(c: Config, start: int, run: seq<Event>)
    decreases |run|
  {
    run == [] ||
    (Legal(c, start, run[..|run| - 1]) &&
     var e := run[|run| - 1];
     e.Insert? ==>
       After(c, start, run[..|run| - 1]).pending > 0 && e.value !in Unpruned(c, start, run[..|run| - 1]).table)
  }

  ghost function After(c: Config, start: int, run: seq<Event>): State
    decreases |run|
  {
    if run == [] then Initial(start) else Apply(c, After(c, start, run[..|run| - 1]), run[|run| - 1])
  }

  ghost function Unpruned(c: Config, start: int, run: seq<Event>): State
    decreases |run|
  {
    if run == [] then Initial(start) else ApplyUnpruned(c, Unpruned(c, start, run[..|run| - 1]), run[|run| - 1])
  }

  /** The nonces of the requests that got past the consumption, in order. */
  ghost function Accepted(c: Config, start: int, run: seq<Event>): seq<string>
    decreases |run|
  {
    if run == [] then [] else
    var s, e := After(c, start, run[..|run| - 1]), run[|run| - 1];
    Accepted(c, start, run[..|run| - 1]) + (if e.Consume? && Accepts(c, s, e.value) then [e.value] else [])
  }

  // ----- pruning is invisible

  ghost predicate Refines(c: Config, s: State, u: State) {
    && s.now == u.now
    && (forall v | v in s.table :: v in u.table && u.table[v] == s.table[v])
    && (forall v | v in u.table && v !in s.table :: u.table[v].created < s.now - c.ttl)
  }

  lemma StepRefines(c: Config, s: State, u: State, e: Event)
    requires Refines(c, s, u) && (e.Insert? ==> e.value !in u.table)
    ensures Refines(c, Apply(c, s, e), ApplyUnpruned(c, u, e))
  {
  }

  lemma {:induction false} RunRefines(c: Config, start: int, run: seq<Event>)
    requires Legal(c, start, run)
    ensures Refines(c, After(c, start, run), Unpruned(c, start, run))
    decreases |run|
  {
    if run != [] {
      var before := run[..|run| - 1];
      RunRefines(c, start, before);
      StepRefines(c, After(c, start, before), Unpruned(c, start, before), run[|run| - 1]);
    }
  }

  /** After any run, every nonce is accepted or refused as if nothing had ever been deleted. */
  lemma PruningInvisible(c: Config, start: int, run: seq<Event>, value: string)
    requires Legal(c, start, run)
    ensures Accepts(c, After(c, start, run), value) <==> Accepts(c, Unpruned(c, start, run), value)
  {
    RunRefines(c, start, run);
  }

  // ----- single use

  ghost predicate Distinct(values: seq<string>) {
    forall i, j | 0 <= i < j < |values| :: values[i] != values[j]
  }

  lemma {:induction false} AcceptedIsUsed(c: Config, start: int, run: seq<Event>)
    requires Legal(c, start, run)
    ensures forall v | v in Accepted(c, start, run) ::
              v in Unpruned(c, start, run).table && Unpruned(c, start, run).table[v].used
    ensures Distinct(Accepted(c, start, run))
    decreases |run|
  {
    if run != [] {
      AcceptedIsUsed(c, start, run[..|run| - 1]);
      RunRefines(c, start, run[..|run| - 1]);
    }
  }

  /** The relay issued the value by event `k`, at time `created`. */
  ghost predicate IssuedAt(c: Config, start: int, run: seq<Event>, value: string, k: nat, created: int) {
    k < |run| && run[k] == Insert(value) && After(c, start, run[..k]).now == created
  }

  /** Every row of the specification stems from an insert of its value, made at the recorded time. */
  lemma {:induction false} RowsAreIssued(c: Config, start: int, run: seq<Event>, value: string) returns (k: nat)
    requires Legal(c, start, run) && value in Unpruned(c, start, run).table
    ensures IssuedAt(c, start, run, value, k, Unpruned(c, start, run).table[value].created)
    decreases |run|
  {
    var before, e := run[..|run| - 1], run[|run| - 1];
    RunRefines(c, start, before);
    if e == Insert(value) {
      k := |run| - 1;
    } else {
      k := RowsAreIssued(c, start, before, value);
      assert before[..k] == run[..k];
    }
  }

  /**
   Over any run the accepted requests map one-to-one to nonces: no value is accepted twice, and one accepted now
   was issued by the relay no longer ago than its time to live.
   */
  lemma SingleUse(c: Config, start: int, run: seq<Event>, value: string) returns (k: nat)
    requires Legal(c, start, run) && Accepts(c, After(c, start, run), value)
    ensures value !in Accepted(c, start, run) && Distinct(Accepted(c, start, run) + [value])
    ensures k < |run| && run[k] == Insert(value)
    ensures After(c, start, run).now - After(c, start, run[..k]).now <= c.ttl
  {
    AcceptedIsUsed(c, start, run);
    RunRefines(c, start, run);
    k := RowsAreIssued(c, start, run, value);
  }

  // ----- exactly what is accepted

  /** An insert leaves a row with its value and its time, for good. */
  lemma {:induction false} InsertedRow(c: Config, start: int, run: seq<Event>, value: string, k: nat)
    requires Legal(c, start, run) && k < |run| && run[k] == Insert(value)
    ensures var u := Unpruned(c, start, run);
            value in u.table && u.table[value].created == After(c, start, run[..k]).now
    decreases |run|
  {
    var before := run[..|run| - 1];
    RunRefines(c, start, before);
    if k < |run| - 1 {
      InsertedRow(c, start, before, value, k);
      assert before[..k] == run[..k];
    }
  }

  lemma {:induction false} UsedIsAccepted(c: Config, start: int, run: seq<Event>, value: string)
    requires Legal(c, start, run)
    ensures value in Unpruned(c, start, run).table && Unpruned(c, start, run).table[value].used ==>
              value in Accepted(c, start, run)
    decreases |run|
  {
    if run != [] {
      UsedIsAccepted(c, start, run[..|run| - 1], value);
      RunRefines(c, start, run[..|run| - 1]);
    }
  }

  /** A nonce is accepted exactly if it was issued, no longer ago than its time to live, and not accepted since. */
  lemma AcceptsExactly(c: Config, start: int, run: seq<Event>, value: string)
    requires Legal(c, start, run)
    ensures Accepts(c, After(c, start, run), value)
            <==> value !in Accepted(c, start, run)
                 && exists k | 0 <= k < |run| ::
                      run[k] == Insert(value) && After(c, start, run).now - After(c, start, run[..k]).now <= c.ttl
  {
    RunRefines(c, start, run);
    AcceptedIsUsed(c, start, run);
    UsedIsAccepted(c, start, run, value);
    if value in Unpruned(c, start, run).table {
      var k := RowsAreIssued(c, start, run, value);
      assert run[k] == Insert(value);
    }
    forall k | 0 <= k < |run| && run[k] == Insert(value)
      ensures value in Unpruned(c, start, run).table
              && Unpruned(c, start, run).table[value].created == After(c, start, run[..k]).now
    {
      InsertedRow(c, start, run, value, k);
    }
  }

  // ----- the cap

  ghost predicate AtMostPending(c: Config, start: int, run: seq<Event>, k: nat)
    decreases |run|
  {
    After(c, start, run).pending <= k && (run != [] ==> AtMostPending(c, start, run[..|run| - 1], k))
  }

  lemma {:induction false} CapInvariant(c: Config, start: int, run: seq<Event>, k: nat)
    requires Legal(c, start, run) && c.cap > 0 && AtMostPending(c, start, run, k)
    ensures |After(c, start, run).table| + After(c, start, run).pending <= c.cap + k - 1
    decreases |run|
  {
    if run != [] {
      var before, e := run[..|run| - 1], run[|run| - 1];
      var s := After(c, start, before);
      CapInvariant(c, start, before, k);
      match e
      case Prune =>
        SubsetSize(Pruned(c, s).Keys, s.table.Keys);
        assert |Pruned(c, s).Keys| == |Pruned(c, s)| && |s.table.Keys| == |s.table|;
      case Consume(value) =>
        if value in s.table {
          assert s.table[value := s.table[value].(used := true)].Keys == s.table.Keys;
        }
      case _ =>
    }
  }

  /** With at most `k` generators between count and insert, the table holds at most cap + k - 1 rows. */
  lemma CapHolds(c: Config, start: int, run: seq<Event>, k: nat)
    requires Legal(c, start, run) && c.cap > 0 && AtMostPending(c, start, run, k)
    ensures |After(c, start, run).table| <= c.cap + k - 1
  {
    CapInvariant(c, start, run, k);
  }

  /** No value from the `n`-th on was ever issued. */
  ghost predicate FreshFrom(c: Config, start: int, run: seq<Event>, n: nat) {
    forall j: nat | n <= j :: Numeral(j, Decimal) !in Unpruned(c, start, run).table
  }

  lemma Extend(c: Config, start: int, run: seq<Event>, e: Event)
    ensures After(c, start, run + [e]) == Apply(c, After(c, start, run), e)
    ensures Unpruned(c, start, run + [e]) == ApplyUnpruned(c, Unpruned(c, start, run), e)
    ensures Legal(c, start, run) && !e.Insert? ==> Legal(c, start, run + [e])
    ensures forall k | AtMostPending(c, start, run, k) && After(c, start, run + [e]).pending <= k ::
              AtMostPending(c, start, run + [e], k)
  {
    assert (run + [e])[..|run|] == run;
  }

  /** The run leaves `n` rows, of the values 0, ..., n - 1, and `p` generators before their insert. */
  ghost predicate Filled(c: Config, start: int, run: seq<Event>, k: nat, n: nat, p: nat) {
    && Legal(c, start, run) && FreshFrom(c, start, run, n) && AtMostPending(c, start, run, k)
    && |After(c, start, run).table| == n && After(c, start, run).pending == p
  }

  lemma CountOne(c: Config, start: int, run: seq<Event>, k: nat, n: nat, p: nat)
    requires Filled(c, start, run, k, n, p) && p < k && n < c.cap
    ensures Filled(c, start, run + [CountRows], k, n, p + 1)
  {
    Extend(c, start, run, CountRows);
  }

  lemma InsertOne(c: Config, start: int, run: seq<Event>, k: nat, n: nat, p: nat)
    requires Filled(c, start, run, k, n, p) && p > 0
    ensures Filled(c, start, run + [Insert(Numeral(n, Decimal))], k, n + 1, p - 1)
  {
    var run' := run + [Insert(Numeral(n, Decimal))];
    assert run'[..|run|] == run;
    Extend(c, start, run, Insert(Numeral(n, Decimal)));
    RunRefines(c, start, run);
    assert Numeral(n, Decimal) !in After(c, start, run).table;
    forall j: nat | n + 1 <= j ensures Numeral(j, Decimal) !in Unpruned(c, start, run').table {
      if Numeral(j, Decimal) == Numeral(n, Decimal) {
        NumeralInjective(j, n, Decimal);
      }
    }
  }

  /** The bound is exact: for every cap and every number of concurrent generators some run reaches it. */
  lemma CapIsReached(c: Config, start: int, k: nat) returns (run: seq<Event>)
    requires c.cap > 0 && k > 0
    ensures Legal(c, start, run) && AtMostPending(c, start, run, k)
    ensures |After(c, start, run).table| == c.cap + k - 1
  {
    run := [];
    var n, p := 0, 0;
    while n < c.cap - 1
      invariant n <= c.cap - 1 && Filled(c, start, run, k, n, 0)
    {
      CountOne(c, start, run, k, n, 0);
      InsertOne(c, start, run + [CountRows], k, n, 1);
      run := run + [CountRows] + [Insert(Numeral(n, Decimal))];
      n := n + 1;
    }
    while p < k
      invariant p <= k && Filled(c, start, run, k, n, p)
    {
      CountOne(c, start, run, k, n, p);
      run := run + [CountRows];
      p := p + 1;
    }
    while p > 0
      invariant n + p == c.cap + k - 1 && Filled(c, start, run, k, n, p)
    {
      InsertOne(c, start, run, k, n, p);
      run := run + [Insert(Numeral(n, Decimal))];
      n, p := n + 1, p - 1;
    }
  }
}
