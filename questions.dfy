/**
  Question preparation (`prepareQuestions` in app/index.tsx): shuffle the
  question order, shuffle each question's options, and move each correct
  answer to a slot taken from a shuffled, evenly spread slot sequence.
*/
module Questions {
  import opened Wrappers
  import opened Shuffling

  /** A quiz item.  A missing `alternativas` field is the empty sequence. */
  datatype Pergunta = Pergunta(id: string, pergunta: string, alternativas: seq<string>, respostaCorreta: string)

  /**
    The random draws one call of `prepareQuestions` consumes: one table for
    the question order, one for the slot sequence, and one per question (in
    shuffled order) for that question's options.
  */
  datatype Draws = Draws(order: seq<nat>, slots: seq<nat>, options: seq<seq<nat>>)

  predicate ValidFor(base: seq<Pergunta>, d: Draws) {
    ValidDraws(d.order, |base|) && ValidDraws(d.slots, |base|) && |d.options| == |base| &&
    var qs := FisherYates(base, d.order);
    forall i :: 0 <= i < |base| ==> ValidDraws(d.options[i], |qs[i].alternativas|)
  }

  /** The largest option count, 0 for no questions. */
  function MaxLen(qs: seq<Pergunta>): (m: nat)
    ensures forall i :: 0 <= i < |qs| ==> |qs[i].alternativas| <= m
    ensures |qs| > 0 ==> exists i :: 0 <= i < |qs| && m == |qs[i].alternativas|
    ensures |qs| == 0 ==> m == 0
  {
    if |qs| == 0 then 0
    else
      var t := MaxLen(qs[1..]);
      assert forall i :: 1 <= i < |qs| ==> qs[i] == qs[1..][i - 1];
      if |qs[0].alternativas| >= t then |qs[0].alternativas| else t
  }

  /**
    `maxOptions`: the largest option count in a non-empty batch, or 4 when
    every question has no options.
  */
  function MaxOptions(qs: seq<Pergunta>): (m: nat)
    requires |qs| > 0
    ensures m >= 1
    ensures (forall i :: 0 <= i < |qs| ==> qs[i].alternativas == []) ==> m == 4
    ensures (exists i :: 0 <= i < |qs| && qs[i].alternativas != []) ==>
              (forall i :: 0 <= i < |qs| ==> |qs[i].alternativas| <= m) &&
              (exists i :: 0 <= i < |qs| && m == |qs[i].alternativas|)
  {
    var t := MaxLen(qs);
    if t == 0 then 4 else t
  }

  /** The slot sequence `[0 % m, 1 % m, ..., (n - 1) % m]`. */
  function Cycle(n: nat, m: nat): (r: seq<nat>)
    requires m > 0
    ensures |r| == n && forall i :: 0 <= i < n ==> r[i] < m
  {
    seq(n, i => i % m)
  }

  lemma MulAtLeast(m: nat, d: int)
    requires m > 0 && d >= 1
    ensures m * d >= m
  {
    if d > 1 {
      MulAtLeast(m, d - 1);
      assert m * d == m * (d - 1) + m;
    }
  }

  /** Quotient and remainder are determined by `a == m * q + r` with `0 <= r < m`. */
  lemma DivModUnique(a: nat, m: nat, q: int, r: int)
    requires m > 0 && 0 <= r < m && a == m * q + r
    ensures a / m == q && a % m == r
  {
    var q', r' := a / m, a % m;
    assert a == m * q' + r';
    assert m * (q - q') == r' - r by {
      assert m * (q - q') == m * q - m * q';
    }
    if q > q' {
      MulAtLeast(m, q - q');
    } else if q < q' {
      MulAtLeast(m, q' - q);
    }
  }

  lemma DivModStep(n: nat, m: nat)
    requires m > 0
    ensures n % m < m - 1 ==> (n + 1) / m == n / m && (n + 1) % m == n % m + 1
    ensures n % m == m - 1 ==> (n + 1) / m == n / m + 1 && (n + 1) % m == 0
  {
    var q, r := n / m, n % m;
    if r < m - 1 {
      DivModUnique(n + 1, m, q, r + 1);
    } else {
      assert n + 1 == m * (q + 1) + 0;
      DivModUnique(n + 1, m, q + 1, 0);
    }
  }

  /**
    The slot sequence is balanced: slot `k` occurs `n / m` times, plus one
    more for the first `n % m` slots, so every slot occurs floor(n/m) or
    ceil(n/m) times.
  */
  lemma {:induction false} CycleBalanced(n: nat, m: nat, k: nat)
    requires m > 0 && k < m
    ensures multiset(Cycle(n, m))[k] == n / m + (if k < n % m then 1 else 0)
  {
    if n > 0 {
      var p := n - 1;
      CycleBalanced(p, m, k);
      assert Cycle(n, m) == Cycle(p, m) + [p % m];
      DivModStep(p, m);
    }
  }

  /** `seq.push(i % maxOptions)` for `i` from 0 to `n - 1`. */
  method SlotCycle(n: nat, m: nat) returns (s: seq<nat>)
    requires m > 0
    ensures s == Cycle(n, m)
  {
    s := [];
    var i := 0;
    while i < n
      invariant 0 <= i <= n
      invariant s == Cycle(i, m)
    {
      assert Cycle(i + 1, m) == Cycle(i, m) + [i % m];
      s := s + [i % m];
      i := i + 1;
    }
  }

  /** `findIndex` by value equality: the first position holding `x`. */
  function IndexOf(s: seq<string>, x: string): (r: Option<nat>)
    ensures r.None? <==> x !in s
    ensures r.Some? ==> r.value < |s| && s[r.value] == x && forall k :: 0 <= k < r.value ==> s[k] != x
  {
    if |s| == 0 then None
    else if s[0] == x then Some(0)
    else match IndexOf(s[1..], x)
      case None => None
      case Some(k) => Some(k + 1)
  }

  /**
    One question after preparation: its options shuffled, then the first
    occurrence of the correct answer exchanged into slot
    `slot % max(length, 1)`.
  */
  function PreparedQuestion(q: Pergunta, js: seq<nat>, slot: nat): (p: Pergunta)
    requires ValidDraws(js, |q.alternativas|)
    ensures p.id == q.id && p.pergunta == q.pergunta && p.respostaCorreta == q.respostaCorreta
    ensures |p.alternativas| == |q.alternativas|
  {
    var opts := FisherYates(q.alternativas, js);
    var desired := slot % Max(|opts|, 1);
    match IndexOf(opts, q.respostaCorreta)
    case Some(c) => if c != desired then q.(alternativas := Swap(opts, desired, c)) else q.(alternativas := opts)
    case None => q.(alternativas := opts)
  }

  /** `desiredPositions`: the shuffled slot sequence for a shuffled, non-empty batch. */
  function DesiredSlots(qs: seq<Pergunta>, slots: seq<nat>): (r: seq<nat>)
    requires |qs| > 0 && ValidDraws(slots, |qs|)
    ensures |r| == |qs|
    ensures multiset(r) == multiset(Cycle(|qs|, MaxOptions(qs)))
    ensures forall i :: 0 <= i < |r| ==> r[i] < MaxOptions(qs)
  {
    var c := Cycle(|qs|, MaxOptions(qs));
    var r := FisherYates(c, slots);
    assert forall i :: 0 <= i < |r| ==> r[i] in multiset(c);
    r
  }

  /** The questions in their shuffled order. */
  function Order(base: seq<Pergunta>, d: Draws): (qs: seq<Pergunta>)
    requires ValidFor(base, d)
    ensures |qs| == |base| && multiset(qs) == multiset(base)
  {
    FisherYates(base, d.order)
  }

  /** Each question prepared with its own option draws and its desired slot. */
  function PrepareAll(qs: seq<Pergunta>, options: seq<seq<nat>>, desired: seq<nat>): (r: seq<Pergunta>)
    requires |options| == |qs| == |desired|
    requires forall i :: 0 <= i < |qs| ==> ValidDraws(options[i], |qs[i].alternativas|)
    ensures |r| == |qs|
  {
    seq(|qs|, i requires 0 <= i < |qs| => PreparedQuestion(qs[i], options[i], desired[i]))
  }

  /** The prepared quiz. */
  function PreparedQuiz(base: seq<Pergunta>, d: Draws): (r: seq<Pergunta>)
    requires ValidFor(base, d)
    ensures |r| == |base|
  {
    var qs := Order(base, d);
    if |qs| == 0 then qs
    else PrepareAll(qs, d.options, DesiredSlots(qs, d.slots))
  }

  /** Two questions that agree on everything except their options. */
  predicate SameExceptOptions(p: Pergunta, q: Pergunta) {
    p.id == q.id && p.pergunta == q.pergunta && p.respostaCorreta == q.respostaCorreta
  }

  /** A question with its options dropped: what `...q` carries over unchanged. */
  function Header(q: Pergunta): Pergunta {
    q.(alternativas := [])
  }

  /** Number of occurrences of `x` in `s`. */
  function Count(s: seq<string>, x: string): nat {
    multiset(s)[x]
  }

  /**
    Preparing one question keeps everything but the options, keeps the
    options as a permutation (so the correct answer is neither dropped nor
    duplicated), and puts the correct answer at `slot % length` when it
    occurs; otherwise the options are only shuffled.
  */
  lemma PreparedQuestionFacts(q: Pergunta, js: seq<nat>, slot: nat)
    requires ValidDraws(js, |q.alternativas|)
    ensures SameExceptOptions(PreparedQuestion(q, js, slot), q)
    ensures multiset(PreparedQuestion(q, js, slot).alternativas) == multiset(q.alternativas)
    ensures Count(PreparedQuestion(q, js, slot).alternativas, q.respostaCorreta) == Count(q.alternativas, q.respostaCorreta)
    ensures q.respostaCorreta in q.alternativas ==>
              PreparedQuestion(q, js, slot).alternativas[slot % |q.alternativas|] == q.respostaCorreta
    ensures q.respostaCorreta !in q.alternativas ==>
              PreparedQuestion(q, js, slot).alternativas == FisherYates(q.alternativas, js)
  {
    var opts := FisherYates(q.alternativas, js);
    if q.respostaCorreta in q.alternativas {
      assert q.respostaCorreta in multiset(opts);
    } else {
      assert q.respostaCorreta !in multiset(opts);
    }
  }

  /** Scenario: `["A", "B"]` with answer `"B"` keeps two options and one `"B"`, in the desired slot. */
  lemma TwoOptionScenario(js: seq<nat>, slot: nat)
    requires ValidDraws(js, 2)
    ensures var p := PreparedQuestion(Pergunta("1", "?", ["A", "B"], "B"), js, slot);
      |p.alternativas| == 2 && Count(p.alternativas, "B") == 1 && p.alternativas[slot % 2] == "B"
  {
    var q := Pergunta("1", "?", ["A", "B"], "B");
    PreparedQuestionFacts(q, js, slot);
    assert Count(q.alternativas, "B") == 1;
  }

  /**
    What `prepareQuestions` promises of the whole batch: the same number of
    questions, the same questions up to their options and order, each
    question's options a permutation of its original options, the correct
    answer in its desired slot whenever it occurs.  The balance of the
    desired slots themselves is `DesiredSlotsBalanced`.
  */
  lemma {:induction false} PreparedQuizFacts(base: seq<Pergunta>, d: Draws)
    requires ValidFor(base, d)
    ensures |PreparedQuiz(base, d)| == |base|
    ensures base == [] ==> PreparedQuiz(base, d) == []
    ensures multiset(MapSeq(Header, PreparedQuiz(base, d))) == multiset(MapSeq(Header, base))
    ensures forall i :: 0 <= i < |base| ==>
              SameExceptOptions(PreparedQuiz(base, d)[i], Order(base, d)[i]) &&
              multiset(PreparedQuiz(base, d)[i].alternativas) == multiset(Order(base, d)[i].alternativas)
    ensures base != [] ==> forall i :: 0 <= i < |base| ==>
              var q := Order(base, d)[i];
              q.respostaCorreta in q.alternativas ==>
                PreparedQuiz(base, d)[i].alternativas[DesiredSlots(Order(base, d), d.slots)[i] % |q.alternativas|] == q.respostaCorreta
  {
    var qs := Order(base, d);
    var r := PreparedQuiz(base, d);
    if |qs| > 0 {
      var desired := DesiredSlots(qs, d.slots);
      forall i | 0 <= i < |qs|
        ensures SameExceptOptions(r[i], qs[i])
        ensures multiset(r[i].alternativas) == multiset(qs[i].alternativas)
        ensures qs[i].respostaCorreta in qs[i].alternativas ==>
                  r[i].alternativas[desired[i] % |qs[i].alternativas|] == qs[i].respostaCorreta
      {
        PreparedQuestionFacts(qs[i], d.options[i], desired[i]);
      }
      assert MapSeq(Header, r) == MapSeq(Header, qs);
    }
    FisherYatesMap(Header, base, d.order);
    assert |MapSeq(Header, base)| == |base|;
  }

  /** Every slot below `maxOptions` occurs floor(n/m) or ceil(n/m) times among the desired slots. */
  lemma DesiredSlotsBalanced(qs: seq<Pergunta>, slots: seq<nat>, k: nat)
    requires |qs| > 0 && ValidDraws(slots, |qs|) && k < MaxOptions(qs)
    ensures var n, m := |qs|, MaxOptions(qs);
      multiset(DesiredSlots(qs, slots))[k] == n / m + (if k < n % m then 1 else 0)
  {
    CycleBalanced(|qs|, MaxOptions(qs), k);
  }

  /**
    One question's preparation: `opts = shuffle(q.alternativas || [])`,
    then the in-place exchange of the correct answer into slot `desired`.
  */
  method PrepareOne(q: Pergunta, js: seq<nat>, slot: nat) returns (p: Pergunta)
    requires ValidDraws(js, |q.alternativas|)
    ensures p == PreparedQuestion(q, js, slot)
  {
    var opts := Shuffle(q.alternativas, js);
    var len := Max(opts.Length, 1);
    var desired := slot % len;
    var correctIdx := IndexOf(opts[..], q.respostaCorreta);
    if correctIdx.Some? && correctIdx.value != desired {
      var c := correctIdx.value;
      ghost var before := opts[..];
      var tmp := opts[desired];
      opts[desired] := opts[c];
      opts[c] := tmp;
      assert opts[..] == Swap(before, desired, c);
    }
    p := q.(alternativas := opts[..]);
  }

  /**
    `qs.map((q, i) => ...)`: prepares each question of the shuffled batch
    with its own option draws and its desired slot.
  */
  method PrepareEach(qs: seq<Pergunta>, options: seq<seq<nat>>, desired: seq<nat>) returns (r: seq<Pergunta>)
    requires |options| == |qs| == |desired|
    requires forall i :: 0 <= i < |qs| ==> ValidDraws(options[i], |qs[i].alternativas|)
    ensures r == PrepareAll(qs, options, desired)
  {
    r := [];
    var i := 0;
    while i < |qs|
      invariant 0 <= i <= |qs|
      invariant |r| == i
      invariant forall k :: 0 <= k < i ==> r[k] == PreparedQuestion(qs[k], options[k], desired[k])
    {
      var p := PrepareOne(qs[i], options[i], desired[i]);
      r := r + [p];
      i := i + 1;
    }
  }

  /**
    `prepareQuestions(base)`: shuffle the batch; an empty batch is returned
    as it is; otherwise build and shuffle the slot sequence and prepare each
    question with its desired slot.
  */
  method PrepareQuestions(base: seq<Pergunta>, d: Draws) returns (r: seq<Pergunta>)
    requires ValidFor(base, d)
    ensures r == PreparedQuiz(base, d)
  {
    var qs := Shuffle(base, d.order);
    if qs.Length == 0 {
      r := qs[..];
      return;
    }
    ghost var order := Order(base, d);
    assert qs[..] == order;
    var maxOptions := MaxOptions(qs[..]);
    var cycle := SlotCycle(qs.Length, maxOptions);
    var desiredPositions := Shuffle(cycle, d.slots);
    assert desiredPositions[..] == DesiredSlots(order, d.slots);
    r := PrepareEach(qs[..], d.options, desiredPositions[..]);
  }
}
