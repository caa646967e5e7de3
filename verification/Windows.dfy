/** The execution windows a job may take: `_job_options` of packages/optimization/engine.py.

    The code enumerates index tuples with `itertools.combinations`; a window is, independently of that,
    a set of slots. `OptionsAreWindows` and `WindowHasOption` show that the two agree. */
module Windows {
  import opened Sequences
  import opened Wrappers
  import opened Contracts

  type Choice = seq<int>

  function Ceiling(x: real): int {
    -((-x).Floor)
  }

  /** How many slots a job needs: its hours divided by the first slot's duration, rounded up. */
  function Needed(slots: seq<TimeSlot>, job: Job): int
    requires |slots| > 0 && slots[0].durationHours != 0.0
  {
    Ceiling(job.request.estimatedHours / slots[0].durationHours)
  }

  /** The division and `itertools.combinations` both go through: otherwise the code raises. */
  predicate Plannable(slots: seq<TimeSlot>, job: Job) {
    |slots| == 0 || (slots[0].durationHours != 0.0 && Needed(slots, job) >= 0)
  }

  predicate Eligible(job: Job, slot: TimeSlot) {
    && slot.startsAt < job.sla.deadline
    && job.request.gpuCount <= slot.gpuCapacity
    && job.request.gpuCount as real * job.request.powerKwPerGpu <= slot.powerCapacityKw
  }

  function EligibleIndices(slots: seq<TimeSlot>, job: Job): seq<int> {
    if |slots| == 0 then []
    else
      EligibleIndices(slots[..|slots| - 1], job)
      + if Eligible(job, slots[|slots| - 1]) then [slots[|slots| - 1].index] else []
  }

  function Prepend(x: int, choices: seq<Choice>): (r: seq<Choice>) {
    seq(|choices|, i requires 0 <= i < |choices| => [x] + choices[i])
  }

  /** `itertools.combinations(s, k)`, in its order. */
  function Combinations(s: seq<int>, k: nat): seq<Choice> {
    if k == 0 then [[]]
    else if |s| == 0 then []
    else Prepend(s[0], Combinations(s[1..], k - 1)) + Combinations(s[1..], k)
  }

  predicate Consecutive(c: Choice) {
    forall i :: 0 < i < |c| ==> c[i] == c[i - 1] + 1
  }

  function Keep(choices: seq<Choice>, checkpointable: bool): seq<Choice> {
    if |choices| == 0 then []
    else
      Keep(choices[..|choices| - 1], checkpointable)
      + if checkpointable || Consecutive(choices[|choices| - 1]) then [choices[|choices| - 1]] else []
  }

  function OptionList(slots: seq<TimeSlot>, job: Job): seq<Choice>
    requires Plannable(slots, job)
  {
    if |slots| == 0 then []
    else Keep(Combinations(EligibleIndices(slots, job), Needed(slots, job)), job.checkpointable)
  }

  /** `_job_options`, with `None` for the arithmetic errors it lets escape. */
  method JobOptions(slots: seq<TimeSlot>, job: Job) returns (options: Option<seq<Choice>>)
    ensures options.Some? <==> Plannable(slots, job)
    ensures options.Some? ==> options.value == OptionList(slots, job)
    ensures options.Some? && Aligned(slots) ==>
              forall c :: c in options.value <==> Increasing(c) && IsWindow(slots, job, Members(c))
  {
    hide IsWindow, Combinations, Increasing;
    if Plannable(slots, job) && Aligned(slots) {
      forall c
        ensures c in OptionList(slots, job) <==> Increasing(c) && IsWindow(slots, job, Members(c))
      {
        OptionsAreWindows(slots, job, c);
      }
    }
    if |slots| == 0 {
      return Some([]);
    }
    if slots[0].durationHours == 0.0 || Needed(slots, job) < 0 {
      return None;
    }
    var eligible: seq<int> := [];
    for i := 0 to |slots|
      invariant eligible == EligibleIndices(slots[..i], job)
    {
      assert slots[..i + 1][..i] == slots[..i];
      if Eligible(job, slots[i]) {
        eligible := eligible + [slots[i].index];
      }
    }
    assert slots[..|slots|] == slots;
    var combinations := Combinations(eligible, Needed(slots, job));
    var kept: seq<Choice> := [];
    for i := 0 to |combinations|
      invariant kept == Keep(combinations[..i], job.checkpointable)
    {
      assert combinations[..i + 1][..i] == combinations[..i];
      if job.checkpointable || Consecutive(combinations[i]) {
        kept := kept + [combinations[i]];
      }
    }
    assert combinations[..|combinations|] == combinations;
    return Some(kept);
  }

  lemma IncreasingAppend(front: seq<int>, x: int)
    requires Increasing(front) && forall y :: y in front ==> y < x
    ensures Increasing(front + [x])
  {
    forall i, j | 0 <= i < j < |front + [x]|
      ensures (front + [x])[i] < (front + [x])[j]
    {
      assert front[i] in front;
    }
  }

  lemma IncreasingFromTail(c: seq<int>)
    requires |c| > 0 && Increasing(c[1..]) && forall y :: y in c[1..] ==> c[0] < y
    ensures Increasing(c)
  {
    forall i, j | 0 <= i < j < |c|
      ensures c[i] < c[j]
    {
      assert c[j] == c[1..][j - 1] && c[j] in c[1..];
      if i > 0 { assert c[i] == c[1..][i - 1]; }
    }
  }

  lemma IncreasingTail(s: seq<int>)
    requires |s| > 0 && Increasing(s)
    ensures Increasing(s[1..]) && forall y :: y in s[1..] ==> s[0] < y
  {
  }

  lemma IncreasingFront(front: seq<int>, last: int)
    requires Increasing(front + [last])
    ensures Increasing(front) && forall x :: x in front ==> x < last
  {
    var c := front + [last];
    assert forall i :: 0 <= i < |front| ==> c[i] == front[i] && c[i] < c[|front|];
  }

  lemma DistinctTail(s: seq<int>)
    requires |s| > 0 && Distinct(s)
    ensures Distinct(s[1..]) && s[0] !in s[1..]
  {
  }

  lemma HeadOrTail(s: seq<int>)
    requires |s| > 0
    ensures forall x :: x in s <==> x == s[0] || x in s[1..]
  {
    assert s == [s[0]] + s[1..];
  }

  lemma DistinctFromTail(c: seq<int>)
    requires |c| > 0 && Distinct(c[1..]) && c[0] !in c[1..]
    ensures Distinct(c)
  {
    forall i, j | 0 <= i < j < |c|
      ensures c[i] != c[j]
    {
      assert c[j] == c[1..][j - 1] && c[j] in c[1..];
      if i > 0 { assert c[i] == c[1..][i - 1]; }
    }
  }

  // ----- what the option list holds, whatever the slot numbering -----

  lemma {:induction false} EligibleMember(slots: seq<TimeSlot>, job: Job, x: int)
    ensures x in EligibleIndices(slots, job) <==>
            exists i :: 0 <= i < |slots| && slots[i].index == x && Eligible(job, slots[i])
  {
    if |slots| == 0 {
    } else {
      EligibleMember(slots[..|slots| - 1], job, x);
      assert forall i :: 0 <= i < |slots| - 1 ==> slots[..|slots| - 1][i] == slots[i];
    }
  }

  lemma {:induction false} EligibleDistinct(slots: seq<TimeSlot>, job: Job)
    requires UniqueSlots(slots)
    ensures Distinct(EligibleIndices(slots, job))
  {
    if |slots| == 0 {
    } else {
      var front := slots[..|slots| - 1];
      EligibleDistinct(front, job);
      EligibleMember(front, job, slots[|slots| - 1].index);
    }
  }

  lemma {:induction false} KeepMember(choices: seq<Choice>, checkpointable: bool, c: Choice)
    ensures c in Keep(choices, checkpointable) <==> c in choices && (checkpointable || Consecutive(c))
  {
    if |choices| == 0 {
    } else {
      KeepMember(choices[..|choices| - 1], checkpointable, c);
      assert choices == choices[..|choices| - 1] + [choices[|choices| - 1]];
    }
  }

  lemma {:induction false} PrependMember(x: int, choices: seq<Choice>, c: Choice)
    ensures c in Prepend(x, choices) <==> |c| > 0 && c[0] == x && c[1..] in choices
  {
    if c in Prepend(x, choices) {
      var i :| 0 <= i < |choices| && Prepend(x, choices)[i] == c;
      assert c[1..] == choices[i];
    }
    if |c| > 0 && c[0] == x && c[1..] in choices {
      var i :| 0 <= i < |choices| && choices[i] == c[1..];
      assert Prepend(x, choices)[i] == c;
    }
  }

  ghost predicate TakesFirst(s: seq<int>, k: nat, c: Choice)
    requires k > 0 && |s| > 0
  {
    |c| > 0 && c[0] == s[0] && c[1..] in Combinations(s[1..], k - 1)
  }

  /** A combination of `s` takes its first element or leaves it. */
  lemma CombinationCases(s: seq<int>, k: nat, c: Choice)
    ensures k == 0 ==> (c in Combinations(s, k) <==> c == [])
    ensures k > 0 && |s| == 0 ==> c !in Combinations(s, k)
    ensures k > 0 && |s| > 0 ==> (c in Combinations(s, k) <==> TakesFirst(s, k, c) || c in Combinations(s[1..], k))
  {
    if k > 0 && |s| > 0 {
      PrependMember(s[0], Combinations(s[1..], k - 1), c);
    }
  }

  lemma {:induction false} CombinationSound(s: seq<int>, k: nat, c: Choice)
    requires c in Combinations(s, k)
    ensures |c| == k
    ensures forall x :: x in c ==> x in s
    decreases |s|
  {
    hide Combinations;
    CombinationCases(s, k, c);
    if k == 0 {
    } else {
      HeadOrTail(s);
      if TakesFirst(s, k, c) {
        CombinationSound(s[1..], k - 1, c[1..]);
        HeadOrTail(c);
      } else {
        CombinationSound(s[1..], k, c);
      }
    }
  }

  lemma {:induction false} CombinationDistinct(s: seq<int>, k: nat, c: Choice)
    requires Distinct(s) && c in Combinations(s, k)
    ensures Distinct(c)
    decreases |s|
  {
    hide Combinations;
    CombinationCases(s, k, c);
    if k == 0 {
    } else {
      DistinctTail(s);
      if TakesFirst(s, k, c) {
        CombinationDistinct(s[1..], k - 1, c[1..]);
        CombinationSound(s[1..], k - 1, c[1..]);
        DistinctFromTail(c);
      } else {
        CombinationDistinct(s[1..], k, c);
      }
    }
  }

  /** Every option names eligible slots only, each once. */
  lemma OptionSound(slots: seq<TimeSlot>, job: Job, c: Choice)
    requires Plannable(slots, job) && c in OptionList(slots, job)
    ensures |slots| > 0 && |c| == Needed(slots, job)
    ensures forall x :: x in c ==> exists i :: 0 <= i < |slots| && slots[i].index == x && Eligible(job, slots[i])
    ensures UniqueSlots(slots) ==> Distinct(c)
  {
    var eligible := EligibleIndices(slots, job);
    KeepMember(Combinations(eligible, Needed(slots, job)), job.checkpointable, c);
    CombinationSound(eligible, Needed(slots, job), c);
    if UniqueSlots(slots) {
      EligibleDistinct(slots, job);
      CombinationDistinct(eligible, Needed(slots, job), c);
    }
    forall x | x in c
      ensures exists i :: 0 <= i < |slots| && slots[i].index == x && Eligible(job, slots[i])
    {
      EligibleMember(slots, job, x);
    }
  }

  // ----- aligned slots: options are exactly the windows -----

  /** `n` slots of this duration last as long as the job. */
  ghost predicate Covers(n: nat, duration: real, hours: real) {
    n as real * duration >= hours
  }

  /** The least number of slots that last as long as the job; slots of negative duration are not used at all. */
  ghost predicate LeastCovering(n: nat, duration: real, hours: real) {
    if duration > 0.0 then Covers(n, duration, hours) && forall m: nat :: Covers(m, duration, hours) ==> n <= m
    else n == 0
  }

  /** A set of slots a job may run in: just as many as its hours take, each starting before the deadline and with the
      GPUs and the power for the whole job, and without gaps unless the job can be checkpointed. */
  ghost predicate IsWindow(slots: seq<TimeSlot>, job: Job, window: set<int>) {
    && |slots| > 0
    && LeastCovering(|window|, slots[0].durationHours, job.request.estimatedHours)
    && (forall s :: s in window ==>
          && 0 <= s < |slots|
          && slots[s].startsAt < job.sla.deadline
          && slots[s].gpuCapacity >= job.request.gpuCount
          && slots[s].powerCapacityKw >= job.request.powerKwPerGpu * job.request.gpuCount as real)
    && (job.checkpointable || forall a, x, b :: a in window && b in window && a <= x <= b ==> x in window)
  }

  /** Rounding up the quotient gives the least number of slots that cover the job. */
  lemma NeededIsLeast(slots: seq<TimeSlot>, job: Job, n: nat)
    requires |slots| > 0 && Plannable(slots, job)
    ensures LeastCovering(n, slots[0].durationHours, job.request.estimatedHours) <==> n == Needed(slots, job)
  {
    hide Covers, Ceiling;
    var d, h, needed := slots[0].durationHours, job.request.estimatedHours, Needed(slots, job);
    CeilingIs(h / d);
    if d > 0.0 {
      forall m: nat
        ensures Covers(m, d, h) <==> needed <= m
      {
        CoversIff(m, d, h);
      }
      assert Covers(needed, d, h);
    } else {
      NegativeQuotient(h, d);
    }
  }

  lemma CeilingIs(x: real)
    ensures x <= Ceiling(x) as real < x + 1.0
  {
  }

  lemma CoversIff(m: nat, d: real, h: real)
    requires d > 0.0
    ensures Covers(m, d, h) <==> m as real >= h / d
  {
    var q := h / d;
    assert q * d == h;
    if m as real >= q {
      assert m as real * d >= q * d;
    } else {
      assert m as real * d < q * d;
    }
  }

  lemma NegativeQuotient(h: real, d: real)
    requires h > 0.0 && d < 0.0
    ensures h / d < 0.0
  {
    var q := h / d;
    assert q * d == h;
    assert q >= 0.0 ==> q * d <= 0.0;
  }

  lemma {:induction false} CombinationComplete(s: seq<int>, k: nat, c: Choice)
    requires Increasing(s) && Increasing(c) && |c| == k
    requires forall x :: x in c ==> x in s
    ensures c in Combinations(s, k)
    decreases |s|
  {
    hide Combinations;
    CombinationCases(s, k, c);
    if k == 0 {
    } else {
      HeadOrTail(c);
      assert c[0] in c;
      HeadOrTail(s);
      IncreasingTail(s);
      IncreasingTail(c);
      if c[0] == s[0] {
        CombinationComplete(s[1..], k - 1, c[1..]);
      } else {
        CombinationComplete(s[1..], k, c);
      }
    }
  }

  lemma {:induction false} EligibleAligned(slots: seq<TimeSlot>, job: Job)
    requires Aligned(slots)
    ensures Increasing(EligibleIndices(slots, job))
    ensures forall x :: x in EligibleIndices(slots, job) <==> 0 <= x < |slots| && Eligible(job, slots[x])
  {
    if |slots| == 0 {
    } else {
      var front := slots[..|slots| - 1];
      EligibleAligned(front, job);
      if Eligible(job, slots[|slots| - 1]) {
        IncreasingAppend(EligibleIndices(front, job), |slots| - 1);
      }
    }
  }

  lemma {:induction false} ElementsSize(c: seq<int>)
    requires Increasing(c)
    ensures |Members(c)| == |c|
  {
    if |c| == 0 {
    } else {
      var front, last := c[..|c| - 1], c[|c| - 1];
      ElementsSize(front);
      assert c == front + [last];
      assert Members(c) == Members(front) + {last};
      assert last !in front;
    }
  }

  lemma {:induction false} RunFrom(c: seq<int>, i: nat, j: nat)
    requires Consecutive(c) && i <= j < |c|
    ensures c[j] == c[i] + (j - i)
  {
    if i < j {
      RunFrom(c, i, j - 1);
    }
  }

  /** An increasing tuple of consecutive indices is a set without gaps, and conversely. */
  lemma ConsecutiveIsGapFree(c: seq<int>)
    requires Increasing(c)
    ensures Consecutive(c) <==> forall a, x, b :: a in c && b in c && a <= x <= b ==> x in c
  {
    if Consecutive(c) {
      forall a, x, b | a in c && b in c && a <= x <= b
        ensures x in c
      {
        var i :| 0 <= i < |c| && c[i] == a;
        var j :| 0 <= j < |c| && c[j] == b;
        assert i <= j;
        RunFrom(c, i, j);
        RunFrom(c, i, i + (x - a));
        assert c[i + (x - a)] == x;
      }
    } else {
      var i :| 0 < i < |c| && c[i] != c[i - 1] + 1;
      var x := c[i - 1] + 1;
      assert c[i - 1] < x < c[i];
      assert forall j :: 0 <= j < |c| ==> c[j] != x;
      assert x !in c;
      assert c[i - 1] in c && c[i] in c;
    }
  }

  /** With aligned slots, the option list holds exactly the increasing tuples that spell a window. */
  lemma OptionsAreWindows(slots: seq<TimeSlot>, job: Job, c: Choice)
    requires Aligned(slots) && Plannable(slots, job)
    ensures c in OptionList(slots, job) <==> Increasing(c) && IsWindow(slots, job, Members(c))
  {
    hide Covers, LeastCovering, Needed;
    if |slots| > 0 {
      NeededIsLeast(slots, job, |Members(c)|);
      var eligible := EligibleIndices(slots, job);
      EligibleAligned(slots, job);
      KeepMember(Combinations(eligible, Needed(slots, job)), job.checkpointable, c);
      if c in Combinations(eligible, Needed(slots, job)) {
        CombinationIncreasing(eligible, Needed(slots, job), c);
        CombinationSound(eligible, Needed(slots, job), c);
      }
      if Increasing(c) {
        ElementsSize(c);
        ConsecutiveIsGapFree(c);
        if IsWindow(slots, job, Members(c)) {
          forall x | x in c
            ensures x in eligible
          {
            assert x in Members(c);
          }
          CombinationComplete(eligible, Needed(slots, job), c);
          assert job.checkpointable || Consecutive(c) by {
            if !job.checkpointable {
              forall a, x, b | a in c && b in c && a <= x <= b
                ensures x in c
              {
                assert a in Members(c) && b in Members(c);
                assert x in Members(c);
              }
            }
          }
        }
      }
    }
  }

  lemma {:induction false} CombinationIncreasing(s: seq<int>, k: nat, c: Choice)
    requires Increasing(s) && c in Combinations(s, k)
    ensures Increasing(c)
    decreases |s|
  {
    hide Combinations;
    CombinationCases(s, k, c);
    if k == 0 {
    } else {
      IncreasingTail(s);
      if TakesFirst(s, k, c) {
        CombinationIncreasing(s[1..], k - 1, c[1..]);
        CombinationSound(s[1..], k - 1, c[1..]);
        IncreasingFromTail(c);
      } else {
        CombinationIncreasing(s[1..], k, c);
      }
    }
  }

  /** The members of `window` below `n`, in order. */
  function Ascending(window: set<int>, n: nat): (c: seq<int>)
    ensures Increasing(c)
    ensures forall x :: x in c <==> x in window && 0 <= x < n
  {
    if n == 0 then []
    else if n - 1 in window then
      var below := Ascending(window, n - 1);
      IncreasingAppend(below, n - 1);
      below + [n - 1]
    else Ascending(window, n - 1)
  }

  lemma LastOfIncreasing(c: seq<int>)
    requires Increasing(c) && |c| > 0
    ensures var front, last := c[..|c| - 1], c[|c| - 1];
            && c == front + [last] && last in c && Increasing(front)
            && (forall x :: x in c ==> x <= last)
            && forall x :: x in front <==> x in c && x != last
  {
  }

  /** A set has only one increasing spelling. */
  lemma {:induction false} OneSpelling(c: seq<int>, d: seq<int>)
    requires Increasing(c) && Increasing(d) && forall x :: x in c <==> x in d
    ensures c == d
    decreases |c|
  {
    hide Increasing;
    var first := EmptyOrFirst(d, 0);
    if |c| == 0 {
      assert first !in c;
    } else {
      LastOfIncreasing(c);
      assert |d| > 0;
      LastOfIncreasing(d);
      OneSpelling(c[..|c| - 1], d[..|d| - 1]);
    }
  }

  /** Every window is spelled by an option, and by no other. */
  lemma WindowHasOption(slots: seq<TimeSlot>, job: Job, window: set<int>)
    requires Aligned(slots) && Plannable(slots, job) && IsWindow(slots, job, window)
    ensures Ascending(window, |slots|) in OptionList(slots, job)
    ensures Members(Ascending(window, |slots|)) == window
    ensures forall c :: c in OptionList(slots, job) && Members(c) == window ==> c == Ascending(window, |slots|)
  {
    hide OptionList;
    var spelling := Ascending(window, |slots|);
    assert Members(spelling) == window;
    OptionsAreWindows(slots, job, spelling);
    forall c | c in OptionList(slots, job) && Members(c) == window
      ensures c == spelling
    {
      OptionsAreWindows(slots, job, c);
      MembersHas(c);
      MembersHas(spelling);
      OneSpelling(c, spelling);
    }
  }
}
