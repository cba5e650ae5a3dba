/**
 * The sample aggregator of the profiler backend: `visit_sample` folds a stream
 * of samples into per-routine self time and invocation counts, `prepare_top`
 * ranks the routines by self time, and the getters read that ranking.
 */
module ProfilerBackend {
  import opened Wrappers

  const UINT64_LIMIT: int := 0x1_0000_0000_0000_0000
  const INT32_LIMIT: int := 0x8000_0000

  /** `uint64_t`. */
  type uint64 = x: int | 0 <= x < 0x1_0000_0000_0000_0000

  /** `uint64_t` arithmetic: the result reduced modulo 2^64. */
  function Wrap(x: int): (r: uint64)
    ensures 0 <= x < UINT64_LIMIT ==> r == x
  {
    x % UINT64_LIMIT
  }

  /** The wrapped value differs from the exact one by a multiple of 2^64. */
  lemma WrapCongruent(x: int)
    ensures (x - Wrap(x)) % UINT64_LIMIT == 0
  {
  }

  /** The conversion of a count to the `int` the getters return: two's complement modulo 2^32. */
  function AsInt32(x: int): (r: int)
    ensures -INT32_LIMIT <= r < INT32_LIMIT
    ensures (x - r) % (2 * INT32_LIMIT) == 0
    ensures 0 <= x < INT32_LIMIT ==> r == x
  {
    var w := x % (2 * INT32_LIMIT);
    if w < INT32_LIMIT then w else w - 2 * INT32_LIMIT
  }

  /** `routine`: a `symbol@dso` name with its self time and invocation count. */
  datatype Routine = Routine(methodName: string, totalTime: uint64, invokeCount: uint64)

  /** The arguments of one `visit_sample` call. */
  datatype Sample = Sample(timestamp: uint64, symbolName: string, dso: string)

  /** The routine a sample belongs to: `symbol_name + "@" + dso`. */
  function RoutineKey(symbolName: string, dso: string): string {
    symbolName + "@" + dso
  }

  function Key(s: Sample): string {
    RoutineKey(s.symbolName, s.dso)
  }

  /** Two samples share a routine exactly when symbol and library agree, as long as symbols hold no `@`. */
  lemma RoutineKeyInjective(sym1: string, dso1: string, sym2: string, dso2: string)
    requires '@' !in sym1 && '@' !in sym2
    ensures RoutineKey(sym1, dso1) == RoutineKey(sym2, dso2) <==> sym1 == sym2 && dso1 == dso2
  {
    var k1 := RoutineKey(sym1, dso1);
    var k2 := RoutineKey(sym2, dso2);
    assert k1[|sym1|] == '@' && k2[|sym2|] == '@';
    assert forall i :: 0 <= i < |sym1| ==> k1[i] == sym1[i];
    assert forall i :: 0 <= i < |sym2| ==> k2[i] == sym2[i];
    if k1 == k2 {
      assert |sym1| == |sym2|;
      assert sym1 == k1[..|sym1|] == k2[..|sym2|] == sym2;
      assert dso1 == k1[|sym1| + 1..] == k2[|sym2| + 1..] == dso2;
    }
  }

  /** With an `@` in the symbol, two different samples can share a routine. */
  lemma RoutineKeyAmbiguous()
    ensures RoutineKey("a@b", "c") == RoutineKey("a", "b@c")
  {
  }

  // ---------------------------------------------------------------------------
  // The aggregator's state as a value

  /** `all_routines`, `last_routine` (as the key it points to) and `routine_start_timestamp`. */
  datatype State = State(routines: map<string, Routine>, last: Option<string>, startTimestamp: uint64)

  /** The globals before any sample. */
  const Initial := State(map[], None, 0)

  /** Routines are stored under their own name, and `last_routine` points into the set. */
  predicate WellFormed(st: State) {
    && (forall k :: k in st.routines ==> st.routines[k].methodName == k)
    && (st.last.Some? ==> st.last.value in st.routines)
  }

  /** `last_routine->total_time += elapsed`. */
  function Credit(m: map<string, Routine>, p: string, elapsed: int): (r: map<string, Routine>)
    requires p in m
    ensures r.Keys == m.Keys
    ensures forall k :: k in r ==> r[k].methodName == m[k].methodName
  {
    m[p := m[p].(totalTime := Wrap(m[p].totalTime + Wrap(elapsed)))]
  }

  /** One more invocation of `key`: a new routine starts at one, an existing one is incremented. */
  function CountInvocation(m: map<string, Routine>, key: string): (r: map<string, Routine>)
    ensures r.Keys == m.Keys + {key}
    ensures (forall k :: k in m ==> m[k].methodName == k) ==> forall k :: k in r ==> r[k].methodName == k
  {
    if key !in m then m[key := Routine(key, 0, 1)]
    else m[key := m[key].(invokeCount := Wrap(m[key].invokeCount + 1))]
  }

  /** `visit_sample` on one sample. */
  function Visit(st: State, s: Sample): (r: State)
    requires WellFormed(st)
    ensures WellFormed(r)
    ensures r.routines.Keys == st.routines.Keys + {Key(s)}
    ensures r.last == Some(Key(s))
  {
    var key := Key(s);
    var start: uint64 := if st.startTimestamp == 0 then s.timestamp else st.startTimestamp;
    if st.last == Some(key) then st.(startTimestamp := start)
    else
      var credited := if st.last.None? then st.routines else Credit(st.routines, st.last.value, s.timestamp - start);
      State(CountInvocation(credited, key), Some(key), s.timestamp)
  }

  /** A sample of the current routine credits and counts nothing; it only starts the clock if it was 0. */
  lemma VisitSameRoutine(st: State, s: Sample)
    requires WellFormed(st) && st.last == Some(Key(s))
    ensures Visit(st, s).routines == st.routines
    ensures Visit(st, s).startTimestamp == if st.startTimestamp == 0 then s.timestamp else st.startTimestamp
  {
  }

  /**
   * A sample of another routine credits the routine left with the time since
   * its run began, counts one invocation of the routine arrived at (creating it
   * with no time and one invocation), restarts the clock, and leaves every other
   * routine alone.
   */
  lemma VisitOtherRoutine(st: State, s: Sample)
    requires WellFormed(st) && st.last != Some(Key(s))
    ensures var r := Visit(st, s);
      var start := if st.startTimestamp == 0 then s.timestamp else st.startTimestamp;
      && r.startTimestamp == s.timestamp
      && (st.last.Some? ==>
            r.routines[st.last.value].totalTime == Wrap(st.routines[st.last.value].totalTime + Wrap(s.timestamp - start))
            && r.routines[st.last.value].invokeCount == st.routines[st.last.value].invokeCount)
      && (Key(s) !in st.routines ==> r.routines[Key(s)] == Routine(Key(s), 0, 1))
      && (Key(s) in st.routines ==>
            r.routines[Key(s)].invokeCount == Wrap(st.routines[Key(s)].invokeCount + 1)
            && r.routines[Key(s)].totalTime == st.routines[Key(s)].totalTime)
      && forall k :: k in st.routines && k != Key(s) && st.last != Some(k) ==> r.routines[k] == st.routines[k]
  {
  }

  /** `visit_sample` on each sample in turn. */
  function VisitAll(st: State, ss: seq<Sample>): (r: State)
    requires WellFormed(st)
    ensures WellFormed(r)
    decreases |ss|
  {
    if |ss| == 0 then st else Visit(VisitAll(st, ss[..|ss| - 1]), ss[|ss| - 1])
  }

  // ---------------------------------------------------------------------------
  // Runs of samples

  /** Sample `i` begins a maximal run of samples of one routine. */
  predicate RunStart(ss: seq<Sample>, i: nat)
    requires i < |ss|
  {
    i == 0 || Key(ss[i]) != Key(ss[i - 1])
  }

  /** The number of maximal runs. */
  function Runs(ss: seq<Sample>): (n: nat)
    ensures n <= |ss|
  {
    if |ss| == 0 then 0 else Runs(ss[..|ss| - 1]) + (if RunStart(ss, |ss| - 1) then 1 else 0)
  }

  /** The timestamp of the first sample of the last run. */
  function LastRunStart(ss: seq<Sample>): uint64
    requires |ss| > 0
  {
    if RunStart(ss, |ss| - 1) then ss[|ss| - 1].timestamp else LastRunStart(ss[..|ss| - 1])
  }

  /** Timestamps as a sampler delivers them: nonzero and non-decreasing. */
  predicate Monotone(ss: seq<Sample>) {
    && (forall i :: 0 <= i < |ss| ==> ss[i].timestamp > 0)
    && (forall i, j :: 0 <= i <= j < |ss| ==> ss[i].timestamp <= ss[j].timestamp)
  }

  lemma {:induction false} LastRunStartBounds(ss: seq<Sample>)
    requires |ss| > 0 && Monotone(ss)
    ensures ss[0].timestamp <= LastRunStart(ss) <= ss[|ss| - 1].timestamp
    decreases |ss|
  {
    if !RunStart(ss, |ss| - 1) {
      LastRunStartBounds(ss[..|ss| - 1]);
    }
  }

  // ---------------------------------------------------------------------------
  // Sums over the routines

  datatype Counter = TotalTime | InvokeCount

  function Stat(r: Routine, c: Counter): uint64 {
    match c
    case TotalTime => r.totalTime
    case InvokeCount => r.invokeCount
  }

  /** The sum of one counter over all routines. */
  ghost function Sum(m: map<string, Routine>, c: Counter): nat
    decreases |m|
  {
    if m == map[] then 0
    else
      var k :| k in m;
      assert (m - {k}).Keys == m.Keys - {k};
      Stat(m[k], c) + Sum(m - {k}, c)
  }

  lemma {:induction false} SumRemove(m: map<string, Routine>, k: string, c: Counter)
    requires k in m
    ensures Sum(m, c) == Stat(m[k], c) + Sum(m - {k}, c)
    decreases |m|
  {
    var k' :| k' in m && Sum(m, c) == Stat(m[k'], c) + Sum(m - {k'}, c);
    if k' != k {
      assert (m - {k'}).Keys == m.Keys - {k'};
      assert (m - {k}).Keys == m.Keys - {k};
      SumRemove(m - {k'}, k, c);
      SumRemove(m - {k}, k', c);
      assert m - {k'} - {k} == m - {k} - {k'};
    }
  }

  lemma SumUpdate(m: map<string, Routine>, k: string, v: Routine, c: Counter)
    ensures Sum(m[k := v], c) == Sum(m, c) - (if k in m then Stat(m[k], c) else 0) + Stat(v, c)
  {
    SumRemove(m[k := v], k, c);
    if k in m {
      SumRemove(m, k, c);
      assert m[k := v] - {k} == m - {k};
    } else {
      assert m[k := v] - {k} == m;
    }
  }

  // ---------------------------------------------------------------------------
  // Conservation

  /**
   * After the samples `ss`: the current routine is the last sample's, its run
   * began at `LastRunStart(ss)`, the self times add up to the time from the
   * first sample to that run's start (the open run is not credited), the
   * invocation counts add up to the number of runs.
   */
  ghost predicate Accounted(st: State, ss: seq<Sample>)
    requires |ss| > 0
  {
    && st.last == Some(Key(ss[|ss| - 1]))
    && st.startTimestamp == LastRunStart(ss)
    && Sum(st.routines, TotalTime) == LastRunStart(ss) - ss[0].timestamp
    && Sum(st.routines, InvokeCount) == Runs(ss)
  }

  /** The first sample starts the clock, creates its routine and credits nothing. */
  lemma FirstSampleAccounted(s: Sample)
    requires s.timestamp > 0
    ensures Accounted(Visit(Initial, s), [s])
  {
    var r := Visit(Initial, s);
    assert r.routines == map[Key(s) := Routine(Key(s), 0, 1)];
    SumUpdate(map[], Key(s), Routine(Key(s), 0, 1), TotalTime);
    SumUpdate(map[], Key(s), Routine(Key(s), 0, 1), InvokeCount);
  }

  /** Crediting time without overflow adds it to the total and leaves the counts alone. */
  lemma CreditSums(m: map<string, Routine>, p: string, elapsed: int)
    requires p in m && 0 <= elapsed && m[p].totalTime + elapsed < UINT64_LIMIT
    ensures Sum(Credit(m, p, elapsed), TotalTime) == Sum(m, TotalTime) + elapsed
    ensures Sum(Credit(m, p, elapsed), InvokeCount) == Sum(m, InvokeCount)
  {
    var v := m[p].(totalTime := m[p].totalTime + elapsed);
    assert Credit(m, p, elapsed) == m[p := v];
    SumUpdate(m, p, v, TotalTime);
    SumUpdate(m, p, v, InvokeCount);
  }

  /** Counting an invocation without overflow adds one to the counts and leaves the time alone. */
  lemma CountSums(m: map<string, Routine>, key: string)
    requires key in m ==> m[key].invokeCount + 1 < UINT64_LIMIT
    ensures Sum(CountInvocation(m, key), InvokeCount) == Sum(m, InvokeCount) + 1
    ensures Sum(CountInvocation(m, key), TotalTime) == Sum(m, TotalTime)
  {
    if key in m {
      var v := m[key].(invokeCount := m[key].invokeCount + 1);
      assert CountInvocation(m, key) == m[key := v];
      SumUpdate(m, key, v, InvokeCount);
      SumUpdate(m, key, v, TotalTime);
    } else {
      var v := Routine(key, 0, 1);
      assert CountInvocation(m, key) == m[key := v];
      SumUpdate(m, key, v, InvokeCount);
      SumUpdate(m, key, v, TotalTime);
    }
  }

  /** The run structure after a sample of another routine: a new run starts at its timestamp. */
  lemma NewRun(ss: seq<Sample>, s: Sample)
    requires |ss| > 0 && Key(s) != Key(ss[|ss| - 1])
    ensures LastRunStart(ss + [s]) == s.timestamp && Runs(ss + [s]) == Runs(ss) + 1
  {
    var ss' := ss + [s];
    assert ss'[..|ss'| - 1] == ss;
    assert ss[|ss| - 1] == ss'[|ss| - 1];
  }

  lemma MonotonePrefix(ss: seq<Sample>, s: Sample)
    requires Monotone(ss + [s])
    ensures Monotone(ss) && (|ss| > 0 ==> ss[|ss| - 1].timestamp <= s.timestamp)
  {
    var ss' := ss + [s];
    forall i | 0 <= i < |ss| ensures ss[i].timestamp > 0 {
      assert ss[i] == ss'[i];
    }
    forall i, j | 0 <= i <= j < |ss| ensures ss[i].timestamp <= ss[j].timestamp {
      assert ss[i] == ss'[i] && ss[j] == ss'[j];
    }
    if |ss| > 0 {
      assert ss[|ss| - 1] == ss'[|ss| - 1] && s == ss'[|ss|];
    }
  }

  /** Crediting the routine left: the self times now reach the new sample's timestamp. */
  lemma {:induction false} SwitchCredit(st: State, ss: seq<Sample>, s: Sample)
    requires WellFormed(st) && |ss| > 0 && Accounted(st, ss)
    requires Monotone(ss) && ss[|ss| - 1].timestamp <= s.timestamp
    ensures st.startTimestamp > 0
    ensures var credited := Credit(st.routines, st.last.value, s.timestamp - st.startTimestamp);
      && Sum(credited, TotalTime) == s.timestamp - ss[0].timestamp
      && Sum(credited, InvokeCount) == Runs(ss)
  {
    LastRunStartBounds(ss);
    var p := st.last.value;
    SumRemove(st.routines, p, TotalTime);
    CreditSums(st.routines, p, s.timestamp - st.startTimestamp);
  }

  /** Counting the routine arrived at: one more invocation, no more time. */
  lemma {:induction false} SwitchCount(credited: map<string, Routine>, key: string)
    requires Sum(credited, InvokeCount) + 1 < UINT64_LIMIT
    ensures Sum(CountInvocation(credited, key), TotalTime) == Sum(credited, TotalTime)
    ensures Sum(CountInvocation(credited, key), InvokeCount) == Sum(credited, InvokeCount) + 1
  {
    if key in credited {
      SumRemove(credited, key, InvokeCount);
    }
    CountSums(credited, key);
  }

  /** Leaving a routine whose clock is running is a credit followed by a count. */
  lemma VisitSwitch(st: State, s: Sample)
    requires WellFormed(st) && st.last.Some? && st.last != Some(Key(s)) && st.startTimestamp > 0
    ensures Visit(st, s).routines == CountInvocation(Credit(st.routines, st.last.value, s.timestamp - st.startTimestamp), Key(s))
    ensures Visit(st, s).startTimestamp == s.timestamp
  {
  }

  /** Leaving the current routine for another credits exactly the closed run and counts one invocation. */
  lemma SwitchAccounted(st: State, ss: seq<Sample>, s: Sample)
    requires WellFormed(st) && |ss| > 0 && Accounted(st, ss)
    requires Monotone(ss) && ss[|ss| - 1].timestamp <= s.timestamp && |ss| + 1 < UINT64_LIMIT
    requires Key(s) != Key(ss[|ss| - 1])
    ensures Accounted(Visit(st, s), ss + [s])
  {
    var ss' := ss + [s];
    SwitchCredit(st, ss, s);
    SwitchCount(Credit(st.routines, st.last.value, s.timestamp - st.startTimestamp), Key(s));
    VisitSwitch(st, s);
    NewRun(ss, s);
    assert ss'[0] == ss[0] && ss'[|ss'| - 1] == s;
  }

  /** Another sample of the current routine changes no counter and keeps the run's start. */
  lemma StayAccounted(st: State, ss: seq<Sample>, s: Sample)
    requires WellFormed(st) && |ss| > 0 && Accounted(st, ss)
    requires Monotone(ss + [s])
    requires Key(s) == Key(ss[|ss| - 1])
    ensures Accounted(Visit(st, s), ss + [s])
  {
    var ss' := ss + [s];
    assert ss'[..|ss'| - 1] == ss;
    assert ss[|ss| - 1] == ss'[|ss| - 1];
    assert !RunStart(ss', |ss'| - 1);
    assert ss[0] == ss'[0];
    assert ss[0].timestamp > 0;
    MonotonePrefix(ss, s);
    LastRunStartBounds(ss);
    VisitSameRoutine(st, s);
  }

  /**
   * For nonzero, non-decreasing timestamps: the self times add up to the time
   * from the first sample to the start of the last run (the open run is never
   * credited, nor is anything on the first sample), and the invocation counts
   * add up to the number of maximal runs.
   */
  lemma {:induction false} Conservation(ss: seq<Sample>)
    requires |ss| > 0 && Monotone(ss) && |ss| < UINT64_LIMIT
    ensures Accounted(VisitAll(Initial, ss), ss)
    ensures var r := VisitAll(Initial, ss);
      && Sum(r.routines, TotalTime) == LastRunStart(ss) - ss[0].timestamp
      && Sum(r.routines, InvokeCount) == Runs(ss)
    decreases |ss|
  {
    if |ss| == 1 {
      assert ss[..0] == [];
      assert ss == [ss[0]];
      FirstSampleAccounted(ss[0]);
    } else {
      var pre := ss[..|ss| - 1];
      var s := ss[|ss| - 1];
      assert ss == pre + [s];
      assert Monotone(pre) by {
        forall i, j | 0 <= i <= j < |pre| ensures pre[i].timestamp <= pre[j].timestamp {
          assert pre[i] == ss[i] && pre[j] == ss[j];
        }
      }
      Conservation(pre);
      if Key(s) == Key(pre[|pre| - 1]) {
        StayAccounted(VisitAll(Initial, pre), pre, s);
      } else {
        MonotonePrefix(pre, s);
        SwitchAccounted(VisitAll(Initial, pre), pre, s);
      }
    }
  }

  lemma VisitAllSnoc(st: State, ss: seq<Sample>, s: Sample)
    requires WellFormed(st)
    ensures VisitAll(st, ss + [s]) == Visit(VisitAll(st, ss), s)
  {
    assert (ss + [s])[..|ss|] == ss;
  }

  lemma ExampleKeys()
    ensures Key(Sample(1, "A", "x")) == "A@x" && Key(Sample(2, "A", "x")) == "A@x"
    ensures Key(Sample(5, "B", "x")) == "B@x" && Key(Sample(9, "A", "x")) == "A@x"
    ensures "A@x" != "B@x"
  {
    assert "A@x"[0] != "B@x"[0];
  }

  lemma ExampleFirstTwo()
    ensures VisitAll(Initial, [Sample(1, "A", "x"), Sample(2, "A", "x")])
         == State(map["A@x" := Routine("A@x", 0, 1)], Some("A@x"), 1)
  {
    var a, b := Sample(1, "A", "x"), Sample(2, "A", "x");
    ExampleKeys();
    VisitAllSnoc(Initial, [], a);
    assert [] + [a] == [a];
    VisitAllSnoc(Initial, [a], b);
    assert [a] + [b] == [a, b];
  }

  lemma ExampleThird()
    ensures VisitAll(Initial, [Sample(1, "A", "x"), Sample(2, "A", "x"), Sample(5, "B", "x")])
         == State(map["A@x" := Routine("A@x", 4, 1), "B@x" := Routine("B@x", 0, 1)], Some("B@x"), 5)
  {
    var a, b, c := Sample(1, "A", "x"), Sample(2, "A", "x"), Sample(5, "B", "x");
    ExampleKeys();
    ExampleFirstTwo();
    VisitAllSnoc(Initial, [a, b], c);
    assert [a, b] + [c] == [a, b, c];
  }

  lemma ExampleFourth()
    ensures Visit(State(map["A@x" := Routine("A@x", 4, 1), "B@x" := Routine("B@x", 0, 1)], Some("B@x"), 5), Sample(9, "A", "x"))
         == State(map["A@x" := Routine("A@x", 4, 2), "B@x" := Routine("B@x", 4, 1)], Some("A@x"), 9)
  {
    ExampleKeys();
    var st := State(map["A@x" := Routine("A@x", 4, 1), "B@x" := Routine("B@x", 0, 1)], Some("B@x"), 5);
    var credited := Credit(st.routines, "B@x", 4);
    assert credited == map["A@x" := Routine("A@x", 4, 1), "B@x" := Routine("B@x", 4, 1)];
    assert CountInvocation(credited, "A@x") == map["A@x" := Routine("A@x", 4, 2), "B@x" := Routine("B@x", 4, 1)];
  }

  /** A routine sampled in runs A A B A: two runs of A credited 4 ticks in all, A counted twice, and the open run of A not credited. */
  lemma AlternatingRuns()
    ensures VisitAll(Initial, [Sample(1, "A", "x"), Sample(2, "A", "x"), Sample(5, "B", "x"), Sample(9, "A", "x")])
         == State(map["A@x" := Routine("A@x", 4, 2), "B@x" := Routine("B@x", 4, 1)], Some("A@x"), 9)
  {
    var a, b, c, d := Sample(1, "A", "x"), Sample(2, "A", "x"), Sample(5, "B", "x"), Sample(9, "A", "x");
    ExampleThird();
    ExampleFourth();
    VisitAllSnoc(Initial, [a, b, c], d);
    assert [a, b, c] + [d] == [a, b, c, d];
  }

  /** The keys of the samples seen. */
  function KeysOf(ss: seq<Sample>): (ks: set<string>)
    ensures forall i :: 0 <= i < |ss| ==> Key(ss[i]) in ks
    ensures forall k :: k in ks ==> exists i :: 0 <= i < |ss| && Key(ss[i]) == k
  {
    if |ss| == 0 then {}
    else
      var pre := ss[..|ss| - 1];
      assert forall i :: 0 <= i < |pre| ==> pre[i] == ss[i];
      KeysOf(pre) + {Key(ss[|ss| - 1])}
  }

  /** There is one routine per distinct key among the samples, and no other. */
  lemma {:induction false} RoutinesAreKeys(ss: seq<Sample>)
    ensures VisitAll(Initial, ss).routines.Keys == KeysOf(ss)
    decreases |ss|
  {
    if |ss| > 0 {
      RoutinesAreKeys(ss[..|ss| - 1]);
    }
  }

  // ---------------------------------------------------------------------------
  // Ranking

  predicate InRoutines(v: seq<string>, m: map<string, Routine>) {
    forall i :: 0 <= i < |v| ==> v[i] in m
  }

  /** Non-increasing by self time, as `greater_by_routine_total_time` orders. */
  predicate Ranked(v: seq<string>, m: map<string, Routine>) {
    && InRoutines(v, m)
    && forall i, j :: 0 <= i < j < |v| ==> m[v[i]].totalTime >= m[v[j]].totalTime
  }

  function InsertByTime(x: string, v: seq<string>, m: map<string, Routine>): (r: seq<string>)
    requires x in m && InRoutines(v, m)
    ensures InRoutines(r, m)
    ensures multiset(r) == multiset(v) + multiset{x}
  {
    if |v| == 0 then [x]
    else if m[x].totalTime >= m[v[0]].totalTime then [x] + v
    else
      assert v == [v[0]] + v[1..];
      [v[0]] + InsertByTime(x, v[1..], m)
  }

  lemma {:induction false} InsertKeepsRanked(x: string, v: seq<string>, m: map<string, Routine>)
    requires x in m && Ranked(v, m)
    ensures Ranked(InsertByTime(x, v, m), m)
    decreases |v|
  {
    if |v| > 0 && m[x].totalTime < m[v[0]].totalTime {
      var rest := InsertByTime(x, v[1..], m);
      InsertKeepsRanked(x, v[1..], m);
      forall j | 0 <= j < |rest| ensures m[v[0]].totalTime >= m[rest[j]].totalTime {
        assert rest[j] in multiset(rest);
        if rest[j] != x {
          assert rest[j] in multiset(v[1..]);
          var k :| 0 <= k < |v[1..]| && v[1..][k] == rest[j];
          assert v[k + 1] == rest[j];
        }
      }
    }
  }

  /** The ranking `std::sort` produces, up to the order of routines with equal self time. */
  function SortByTime(v: seq<string>, m: map<string, Routine>): (r: seq<string>)
    requires InRoutines(v, m)
    ensures InRoutines(r, m)
    ensures multiset(r) == multiset(v)
  {
    if |v| == 0 then []
    else
      assert v == [v[0]] + v[1..];
      InsertByTime(v[0], SortByTime(v[1..], m), m)
  }

  lemma {:induction false} SortByTimeRanked(v: seq<string>, m: map<string, Routine>)
    requires InRoutines(v, m)
    ensures Ranked(SortByTime(v, m), m)
    decreases |v|
  {
    if |v| > 0 {
      SortByTimeRanked(v[1..], m);
      InsertKeepsRanked(v[0], SortByTime(v[1..], m), m);
    }
  }

  // ---------------------------------------------------------------------------
  // The globals

  class SampleAggregator {
    var allRoutines: map<string, Routine>
    var lastRoutine: Option<string>
    var routineStartTimestamp: uint64
    /** `functions_by_self_time`: pointers into `all_routines`, kept as the routines' keys. */
    var functionsBySelfTime: seq<string>

    function Snapshot(): State
      reads this
    {
      State(allRoutines, lastRoutine, routineStartTimestamp)
    }

    ghost predicate Valid()
      reads this
    {
      WellFormed(Snapshot()) && InRoutines(functionsBySelfTime, allRoutines)
    }

    constructor()
      ensures Valid()
      ensures Snapshot() == Initial && functionsBySelfTime == []
    {
      allRoutines := map[];
      lastRoutine := None;
      routineStartTimestamp := 0;
      functionsBySelfTime := [];
    }

    /** `visit_sample`. */
    method VisitSample(timestamp: uint64, symbolName: string, dso: string)
      requires Valid()
      modifies this
      ensures Valid()
      ensures Snapshot() == Visit(old(Snapshot()), Sample(timestamp, symbolName, dso))
      ensures functionsBySelfTime == old(functionsBySelfTime)
    {
      ghost var st := Snapshot();
      var routines, last, start := allRoutines, lastRoutine, routineStartTimestamp;
      var name := RoutineKey(symbolName, dso);
      if start == 0 {
        start := timestamp;
      }
      if last.None? || last.value != name {
        if last.Some? {
          var p := routines[last.value];
          routines := routines[last.value := p.(totalTime := Wrap(p.totalTime + Wrap(timestamp - start)))];
          assert routines == Credit(st.routines, st.last.value, timestamp - start);
        }
        ghost var credited := routines;
        if name !in routines {
          routines := routines[name := Routine(name, 0, 0)];
          routines := routines[name := routines[name].(invokeCount := 1)];
        } else {
          routines := routines[name := routines[name].(invokeCount := Wrap(routines[name].invokeCount + 1))];
        }
        assert routines == CountInvocation(credited, name);
        last := Some(name);
        start := timestamp;
      }
      assert State(routines, last, start) == Visit(st, Sample(timestamp, symbolName, dso));
      allRoutines, lastRoutine, routineStartTimestamp := routines, last, start;
    }

    /**
     * `prepare_top`: appends one entry per routine, in no particular order,
     * then sorts the whole ranking by self time, descending.
     */
    method PrepareTop()
      requires Valid()
      modifies this
      ensures Valid()
      ensures Snapshot() == old(Snapshot())
      ensures multiset(functionsBySelfTime) == multiset(old(functionsBySelfTime)) + multiset(allRoutines.Keys)
      ensures Ranked(functionsBySelfTime, allRoutines)
      ensures old(functionsBySelfTime) == [] ==>
        |functionsBySelfTime| == |allRoutines| && forall k :: k in allRoutines ==> multiset(functionsBySelfTime)[k] == 1
    {
      var appended := functionsBySelfTime;
      var remaining := allRoutines.Keys;
      while remaining != {}
        invariant remaining <= allRoutines.Keys
        invariant InRoutines(appended, allRoutines)
        invariant multiset(appended) + multiset(remaining) == multiset(functionsBySelfTime) + multiset(allRoutines.Keys)
        decreases |remaining|
      {
        var k :| k in remaining;
        assert multiset(remaining) == multiset(remaining - {k}) + multiset{k};
        appended := appended + [k];
        remaining := remaining - {k};
      }
      SortByTimeRanked(appended, allRoutines);
      functionsBySelfTime := SortByTime(appended, allRoutines);
      assert |multiset(allRoutines.Keys)| == |allRoutines.Keys|;
    }

    /** `get_top_len`. */
    method GetTopLen() returns (n: int)
      ensures n == AsInt32(|functionsBySelfTime|)
      ensures |functionsBySelfTime| < INT32_LIMIT ==> n == |functionsBySelfTime|
    {
      n := AsInt32(|functionsBySelfTime|);
    }

    /** `get_top_by_idx` (through `ppp`): the name of the `idx`-th ranked routine. */
    method GetTopByIdx(idx: int) returns (name: string)
      requires Valid() && 0 <= idx < |functionsBySelfTime|
      ensures name == functionsBySelfTime[idx] && name in allRoutines && allRoutines[name].methodName == name
    {
      name := allRoutines[functionsBySelfTime[idx]].methodName;
    }

    /** `get_counters_by_idx`: the self time of the `idx`-th ranked routine. */
    method GetCountersByIdx(idx: int) returns (time: uint64)
      requires Valid() && 0 <= idx < |functionsBySelfTime|
      ensures time == allRoutines[functionsBySelfTime[idx]].totalTime
      ensures forall j :: idx < j < |functionsBySelfTime| && Ranked(functionsBySelfTime, allRoutines) ==>
        time >= allRoutines[functionsBySelfTime[j]].totalTime
    {
      time := allRoutines[functionsBySelfTime[idx]].totalTime;
    }

    /** `get_invoke_count_by_idx`: the invocation count of the `idx`-th ranked routine, as an `int`. */
    method GetInvokeCountByIdx(idx: int) returns (count: int)
      requires Valid() && 0 <= idx < |functionsBySelfTime|
      ensures count == AsInt32(allRoutines[functionsBySelfTime[idx]].invokeCount)
      ensures allRoutines[functionsBySelfTime[idx]].invokeCount < INT32_LIMIT ==>
        count == allRoutines[functionsBySelfTime[idx]].invokeCount
    {
      count := AsInt32(allRoutines[functionsBySelfTime[idx]].invokeCount);
    }
  }
}
