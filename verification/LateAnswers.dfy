/** A fetch that is answered after a later report: a run of the registry that shows one sandbox twice. */
module LateAnswers {
  import opened Text
  import opened Words
  import opened Books
  import opened Registries
  import opened RegistryRuns
  import opened RegistryReports
  import Tickets

  const SEC := 1_000_000_000
  const USUAL := Options(30 * SEC, 5 * SEC, 60, 8, 64)
  const ASKED := Fetch("p", 1, true, Waiting)
  const BEGUN := ASKED.(stage := Fetching(100 * SEC))

  /** A fetch begins, a sandbox is reserved, a push says none is left, and then the fetch is answered that
      there is one. */
  const LATE_ANSWER := [
    Tick(100 * SEC), Add("p", 7), PollDue, Began(ASKED), Pushed("p", Report(1, false)), Tick(101 * SEC), Reserved("p"),
    Tick(120 * SEC), Pushed("p", Report(0, false)), Answered(BEGUN, Some(Report(1, false)))]

  lemma EmptyClears(b: Book, cutoff: u32)
    requires |b.buckets| == 8 && b.buckets == EmptyBook(8).buckets && b.carry == ZERO && b.out == 0
    ensures Tickets.ClearBefore(b, cutoff) == b.(cleared := if cutoff > b.cleared then cutoff else b.cleared)
  {
    assert Tickets.KeptAll(b.buckets, cutoff) == b.buckets;
  }

  lemma OneClears(b: Book, cutoff: u32)
    requires b == Book(0, 1, EmptyBook(8).buckets[5 := Word(101, 1)], ZERO, 95) && cutoff == 115
    ensures Tickets.ClearBefore(b, cutoff) == Book(0, 0, EmptyBook(8).buckets, ZERO, 115)
  {
    var empty := EmptyBook(8).buckets;
    SumUniform(Tail(0), empty, 0);
    SumUpdate(Tail(0), empty, 5, Word(101, 1));
    assert Tickets.KeptAll(b.buckets, cutoff) == empty;
  }

  /** A run as far as it goes. */
  ghost predicate Begins(run: seq<System>, steps: seq<Step>, n: nat) {
    && |run| == n + 1 && n <= |steps|
    && if n == 0 then run[0] == System(Reg(map[], map[], 0, 0, USUAL), multiset{}, 0)
       else Begins(run[..n], steps, n - 1) && Follows(run[n - 1], steps[n - 1], run[n])
  }

  ghost predicate Follows(s: System, step: Step, t: System) {
    Enabled(s, step) && t == Apply(s, step)
  }

  lemma Extend(run: seq<System>, steps: seq<Step>, n: nat) returns (longer: seq<System>)
    requires Begins(run, steps, n) && n < |steps| && Enabled(run[n], steps[n])
    ensures Begins(longer, steps, n + 1) && longer[..n + 1] == run && Follows(run[n], steps[n], longer[n + 1])
  {
    longer := run + [Apply(run[n], steps[n])];
    assert longer[..n + 1] == run;
  }

  lemma {:induction false} BegunFollows(run: seq<System>, steps: seq<Step>, n: nat)
    requires Begins(run, steps, n)
    ensures run[0] == System(Reg(map[], map[], 0, 0, USUAL), multiset{}, 0)
    ensures forall k | 0 <= k < n :: Follows(run[k], steps[k], run[k + 1])
  {
    if n > 0 {
      BegunFollows(run[..n], steps, n - 1);
      forall k | 0 <= k < n ensures Follows(run[k], steps[k], run[k + 1]) {
        if k < n - 1 { assert run[..n][k] == run[k] && run[..n][k + 1] == run[k + 1]; }
      }
    }
  }

  lemma FirstAdded() returns (run: seq<System>)
    ensures Begins(run, LATE_ANSWER, 2) && run[2].now == 100 * SEC && run[2].fetches == multiset{}
    ensures run[2].reg.entries == map["p" := Unheard(USUAL)] && run[2].reg.options == USUAL
    ensures run[2].reg.sources == map["p" := Polled(7, 0, LONG_AGO, false, 1)]
  {
    run := [System(Reg(map[], map[], 0, 0, USUAL), multiset{}, 0)];
    run := Extend(run, LATE_ANSWER, 0);
    run := Extend(run, LATE_ANSWER, 1);
  }

  lemma PollStarts(s: System, t: System)
    requires s.now == 100 * SEC && s.fetches == multiset{}
    requires s.reg.sources == map["p" := Polled(7, 0, LONG_AGO, false, 1)] && t == Apply(s, PollDue)
    ensures t.fetches == multiset{ASKED} && Current(t.reg, "p", 1)
    ensures t.reg.entries == s.reg.entries && t.reg.options == s.reg.options && t.now == s.now
  {
    var p := s.reg.sources["p"];
    assert PollJob("p", p) == ASKED;
    assert PollJobs(s.reg, s.now) == {ASKED};
  }

  lemma FetchBegins() returns (run: seq<System>)
    ensures Begins(run, LATE_ANSWER, 4) && run[4].now == 100 * SEC && run[4].fetches == multiset{BEGUN}
    ensures run[4].reg.entries == run[2].reg.entries == map["p" := Unheard(USUAL)]
    ensures run[4].reg.options == run[2].reg.options == USUAL && Current(run[4].reg, "p", 1)
  {
    run := FirstAdded();
    ghost var s := run[2];
    run := Extend(run, LATE_ANSWER, 2);
    PollStarts(s, run[3]);
    ghost var u := run[3];
    run := Extend(run, LATE_ANSWER, 3);
    assert run[4].fetches == multiset{BEGUN};
  }

  /** The clock and the ledger at the n-th point of that run. */
  ghost function LateNow(n: nat): int {
    if n < 6 then 100 * SEC else if n < 8 then 101 * SEC else 120 * SEC
  }

  ghost function LateBook(n: nat): Book {
    var empty := EmptyBook(8).buckets;
    if n == 4 then EmptyBook(8)
    else if n < 7 then Book(1, 0, empty, ZERO, 95)
    else if n < 9 then Book(1, 1, empty[5 := Word(101, 1)], ZERO, 95)
    else if n == 9 then Book(0, 0, empty, ZERO, 115)
    else Book(1, 0, empty, ZERO, 115)
  }

  ghost function LateCall(n: nat): Option<Tickets.Op> {
    if n == 4 then Some(Tickets.Report(1, 95))
    else if n == 6 then Some(Tickets.Reserve(101))
    else if n == 8 then Some(Tickets.Report(0, 115))
    else if n == 9 then Some(Tickets.Report(1, 95))
    else None
  }

  lemma LedgerAt(n: nat)
    requires 4 <= n < 10
    ensures |LateBook(n).buckets| > 0
    ensures LateBook(n + 1) == if LateCall(n).Some? then Tickets.Apply(LateBook(n), LateCall(n).value) else LateBook(n)
  {
    if n == 4 {
      EmptyClears(Tickets.SetWarm(EmptyBook(8), 1), 95);
    } else if n == 6 {
      assert Tickets.TryReserve(LateBook(6), 101).0.buckets == LateBook(7).buckets;
    } else if n == 8 {
      OneClears(Tickets.SetWarm(LateBook(8), 0), 115);
    } else if n == 9 {
      EmptyClears(Tickets.SetWarm(LateBook(9), 1), 95);
    }
  }

  ghost predicate LateAt(s: System, n: nat) {
    && s.now == LateNow(n) && (n < 10 ==> BEGUN in s.fetches) && Current(s.reg, "p", 1) && s.reg.options == USUAL
    && Has(s, "p") && s.reg.entries["p"].book == LateBook(n)
  }

  lemma CallAt(s: System, n: nat)
    requires 4 <= n < 10 && LateAt(s, n)
    ensures CallOf(s, LATE_ANSWER[n], "p") == LateCall(n) && Enabled(s, LATE_ANSWER[n])
    ensures n == 9 ==> ClearsBefore(s, LATE_ANSWER[n]) == 95 * SEC
  {
  }

  lemma SourcesStay(s: System, step: Step, t: System)
    requires Enabled(s, step) && t == Apply(s, step)
    requires step.Tick? || step.Pushed? || step.Reserved? || step.Answered?
    ensures t.reg.sources == s.reg.sources && t.reg.options == s.reg.options
    ensures t.now == (if step.Tick? then step.now else s.now) && (!step.Answered? ==> t.fetches == s.fetches)
  {
  }

  lemma LateStep(s: System, n: nat, t: System)
    requires 4 <= n < 10 && LateAt(s, n) && Enabled(s, LATE_ANSWER[n]) && t == Apply(s, LATE_ANSWER[n])
    ensures LateAt(t, n + 1)
  {
    var step := LATE_ANSWER[n];
    assert step.Tick? || step.Pushed? || step.Reserved? || (n == 9 && step.Answered?);
    CallAt(s, n);
    StepCalls(s, step, "p");
    SourcesStay(s, step, t);
    LedgerAt(n);
  }

  lemma LateOneMore(run: seq<System>, n: nat) returns (longer: seq<System>)
    requires 4 <= n < 10 && Begins(run, LATE_ANSWER, n) && LateAt(run[n], n)
    ensures Begins(longer, LATE_ANSWER, n + 1) && longer[..n + 1] == run && LateAt(longer[n + 1], n + 1)
  {
    CallAt(run[n], n);
    longer := Extend(run, LATE_ANSWER, n);
    LateStep(run[n], n, longer[n + 1]);
  }

  ghost predicate FreshAt(s: System) {
    s.reg.entries == map["p" := Unheard(USUAL)] && s.reg.options == USUAL
  }

  lemma LateFirst() returns (run: seq<System>)
    ensures Begins(run, LATE_ANSWER, 4) && FreshAt(run[2]) && LateAt(run[4], 4)
  {
    run := FetchBegins();
  }

  lemma SameBefore(before: seq<System>, run: seq<System>, n: nat)
    requires n >= 4 && |before| == n && |run| == n + 1 && run[..n] == before && FreshAt(before[2]) && LateAt(run[n], n)
    requires forall k | 4 <= k < n :: LateAt(before[k], k)
    ensures FreshAt(run[2]) && forall k | 4 <= k <= n :: LateAt(run[k], k)
  {
    forall k | 4 <= k <= n ensures LateAt(run[k], k) {
      if k < n { assert run[..n][k] == run[k]; }
    }
    assert run[..n][2] == run[2];
  }

  lemma {:induction false} LateRun(n: nat) returns (run: seq<System>)
    requires 4 <= n <= 10
    ensures Begins(run, LATE_ANSWER, n) && forall k | 4 <= k <= n :: LateAt(run[k], k)
    ensures FreshAt(run[2])
  {
    if n == 4 {
      run := LateFirst();
    } else {
      var before := LateRun(n - 1);
      run := LateOneMore(before, n - 1);
      SameBefore(before, run, n);
    }
  }

  lemma {:induction false} LateOpen(run: seq<System>, n: nat)
    requires |run| == 11 && (forall k | 4 <= k <= 10 :: LateAt(run[k], k)) && 2 <= n <= 10
    ensures Open(run, LATE_ANSWER, 2, n, "p") == if n < 7 then multiset{} else multiset{101}
  {
    if n > 2 {
      LateOpen(run, n - 1);
      OpenNext(run, LATE_ANSWER, 2, n - 1, "p");
      if n > 4 { CallAt(run[n - 1], n - 1); } else { NoCallYet(run[n - 1], n - 1); }
    }
  }

  lemma NoCallYet(s: System, n: nat)
    requires 2 <= n < 4
    ensures CallOf(s, LATE_ANSWER[n], "p") == None
  {
  }

  lemma OpenNext(run: seq<System>, steps: seq<Step>, i: nat, j: nat, id: string)
    requires i <= j < |steps| && |run| == |steps| + 1
    ensures Open(run, steps, i, j + 1, id) ==
      if CallOf(run[j], steps[j], id).Some? && id in run[j].reg.entries
      then Tickets.Log(Open(run, steps, i, j, id), run[j].reg.entries[id].book, CallOf(run[j], steps[j], id).value)
      else Open(run, steps, i, j, id)
  {
  }

  /** Without that condition it is not so: a push that comes between a fetch and its answer can clear a
      ticket handed out after the fetch began, and the answer then shows its sandbox available again. */
  lemma LateAnswerOverstates() returns (run: seq<System>)
    ensures IsRun(run, LATE_ANSWER) && run[2].reg.entries == map["p" := Unheard(run[2].reg.options)]
    ensures Kept(run, LATE_ANSWER, 2, 10, "p") && ReportOf(run[9], LATE_ANSWER[9], "p") == Some(Report(1, false))
    ensures Open(run, LATE_ANSWER, 2, 10, "p") == multiset{101} && ClearsBefore(run[9], LATE_ANSWER[9]) == 95 * SEC
    ensures CandidateOf("p", EntryOf(run[10].reg, "p"), USUAL, run[10].now).warm == 1
  {
    run := LateRun(10);
    BegunIsRun(run, LATE_ANSWER, 10);
    LateEnds(run);
  }

  lemma BegunIsRun(run: seq<System>, steps: seq<Step>, n: nat)
    requires Begins(run, steps, n) && n == |steps|
    ensures IsRun(run, steps)
  {
    BegunFollows(run, steps, n);
    forall k | 0 <= k < |steps| ensures Enabled(run[k], steps[k]) && run[k + 1] == Apply(run[k], steps[k]) {
      assert Follows(run[k], steps[k], run[k + 1]);
    }
  }

  lemma StepKeepsAll(k: nat, open: multiset<u32>)
    requires 2 <= k < 10
    ensures StepKeepsTickets(LATE_ANSWER[k], open, "p")
  {
  }

  lemma LateEnds(run: seq<System>)
    requires |run| == 11 && forall k | 4 <= k <= 10 :: LateAt(run[k], k)
    ensures Kept(run, LATE_ANSWER, 2, 10, "p") && ReportOf(run[9], LATE_ANSWER[9], "p") == Some(Report(1, false))
    ensures Open(run, LATE_ANSWER, 2, 10, "p") == multiset{101} && ClearsBefore(run[9], LATE_ANSWER[9]) == 95 * SEC
    ensures CandidateOf("p", EntryOf(run[10].reg, "p"), USUAL, run[10].now).warm == 1
  {
    LateOpen(run, 10);
    LateReported(run[9]);
    forall k | 2 <= k < 10 ensures StepKeepsTickets(LATE_ANSWER[k], Open(run, LATE_ANSWER, 2, k, "p"), "p") {
      StepKeepsAll(k, Open(run, LATE_ANSWER, 2, k, "p"));
    }
    LateShown(run[10]);
  }

  lemma LateReported(s: System)
    requires LateAt(s, 9)
    ensures ReportOf(s, LATE_ANSWER[9], "p") == Some(Report(1, false)) && ClearsBefore(s, LATE_ANSWER[9]) == 95 * SEC
  {
  }

  lemma LateShown(s: System)
    requires LateAt(s, 10)
    ensures CandidateOf("p", EntryOf(s.reg, "p"), USUAL, s.now).warm == 1
  {
  }
}
