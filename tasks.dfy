/** The siret verification task: every entry handed to it is looked up with
    the `check_siret` oracle, in order, progress is reported after each
    lookup, and the entries whose siret the oracle rejects are returned. The
    oracle (a search-index query) is a function parameter, and the lookups
    and task-state updates are recorded, in the order they happen, in one
    ghost trace. */
module Tasks {
  import opened Values

  /** One entry to check: `{"siret": row.siret, "row_number": row.index}`;
      `rowNumber` is `None` for an entry without that key. */
  datatype Entry = Entry(siret: Option<string>, rowNumber: Option<int>)

  /** A task-state update: `PROGRESS` or `DONE`, with its `progress` meta. */
  datatype TaskState = Progress(progress: int) | Done(progress: int)

  /** What the task does to the outside world: a lookup of one siret with the
      oracle, or a task-state update. */
  datatype Event = Lookup(siret: Option<string>) | Update(state: TaskState)

  /** Python's `round` of the ratio `num / den`, to the nearest integer,
      a tie going to the even neighbour (the remainder `m` decides). */
  function RoundHalfEven(num: nat, den: nat): (r: nat)
    requires den > 0
    ensures num / den <= r <= num / den + 1
  {
    var q, m := num / den, num % den;
    if 2 * m < den then q
    else if 2 * m > den then q + 1
    else if q % 2 == 0 then q
    else q + 1
  }

  /** `c * (x + y)`, spelled out. */
  lemma Distribute(c: int, x: int, y: int)
    ensures c * (x + y) == c * x + c * y
  {
  }

  lemma MulLe(c: nat, x: int, y: int)
    requires x <= y
    ensures c * x <= c * y
  {
    Distribute(c, x, y - x);
  }

  /** For `num = den * q + m`, rounding to `q` when `m` is at most half of
      `den`, or to `q + 1` when it is at least half, stays within one half of
      the ratio, and lands on a halfway point only when `m` is exactly half. */
  lemma Halves(num: nat, den: nat, q: nat, m: nat, r: int)
    requires den > 0 && num == den * q + m && m < den
    requires (r == q && 2 * m <= den) || (r == q + 1 && 2 * m >= den)
    ensures den * (2 * r - 1) <= 2 * num <= den * (2 * r + 1)
    ensures 2 * num == den * (2 * r + 1) || 2 * num == den * (2 * r - 1) ==> 2 * m == den
  {
    var dq := den * q;
    Distribute(den, 2 * q, -1);
    Distribute(den, 2 * q, 1);
    Distribute(den, 2 * q, 3);
    Distribute(den, q, q);
    assert den * (2 * q) == 2 * dq;
    if r == q + 1 {
      assert 2 * r - 1 == 2 * q + 1 && 2 * r + 1 == 2 * q + 3;
    }
  }

  /** The rounding is within one half of the ratio, and a ratio exactly
      halfway between two integers goes to the even one. */
  lemma RoundHalfEvenSpec(num: nat, den: nat)
    requires den > 0
    ensures var r: int := RoundHalfEven(num, den);
            && den * (2 * r - 1) <= 2 * num <= den * (2 * r + 1)
            && (2 * num == den * (2 * r + 1) || 2 * num == den * (2 * r - 1) ==> r % 2 == 0)
  {
    Halves(num, den, num / den, num % den, RoundHalfEven(num, den));
  }

  /** Rounding does not decrease when the ratio grows. */
  lemma RoundMonotone(a: nat, b: nat, den: nat)
    requires den > 0 && a <= b
    ensures RoundHalfEven(a, den) <= RoundHalfEven(b, den)
  {
    var ra: int, rb: int := RoundHalfEven(a, den), RoundHalfEven(b, den);
    RoundHalfEvenSpec(a, den);
    RoundHalfEvenSpec(b, den);
    if ra > rb {
      MulLe(den, 2 * rb + 1, 2 * ra - 1);
      assert false;
    }
  }

  /** The progress reported after `k` of `n` entries: `round(100 * k / n)`. */
  function ProgressAt(k: nat, n: nat): int
    requires n > 0
  {
    RoundHalfEven(100 * k, n)
  }

  /** The progress values lie between 0 and 100, never decrease, and reach
      100 with the last entry. */
  lemma ProgressFacts(k: nat, l: nat, n: nat)
    requires 0 < n && k <= l <= n
    ensures 0 <= ProgressAt(k, n) <= ProgressAt(l, n) <= 100
    ensures ProgressAt(n, n) == 100
  {
    RoundMonotone(100 * k, 100 * l, n);
    RoundMonotone(100 * l, 100 * n, n);
    var r: int := RoundHalfEven(100 * n, n);
    RoundHalfEvenSpec(100 * n, n);
    if r < 100 {
      MulLe(n, 2 * r + 1, 199);
    } else if r > 100 {
      MulLe(n, 201, 2 * r - 1);
    }
  }

  /** Ties go to the even neighbour: the first of eight entries reports 12
      (12.5 rounded down), the third 38 (37.5 rounded up); thirds round to
      the nearest. */
  lemma ProgressExamples()
    ensures ProgressAt(1, 8) == 12 && ProgressAt(3, 8) == 38
    ensures ProgressAt(1, 3) == 33 && ProgressAt(2, 3) == 67
  {
  }

  /** The entries whose siret the oracle rejects, in input order. */
  function Failing(data: seq<Entry>, checkSiret: Option<string> -> bool): (es: seq<Entry>)
    ensures |es| <= |data|
  {
    if data == [] then []
    else Failing(data[..|data| - 1], checkSiret) +
         (if checkSiret(data[|data| - 1].siret) then [] else [data[|data| - 1]])
  }

  /** The failing entries of two lists one after the other are those of the
      first followed by those of the second: the order of the input is kept. */
  lemma {:induction false} FailingAppend(a: seq<Entry>, b: seq<Entry>, checkSiret: Option<string> -> bool)
    ensures Failing(a + b, checkSiret) == Failing(a, checkSiret) + Failing(b, checkSiret)
    decreases |b|
  {
    if b != [] {
      var b' := b[..|b| - 1];
      assert (a + b)[..|a + b| - 1] == a + b';
      FailingAppend(a, b', checkSiret);
    } else {
      assert a + b == a;
    }
  }

  /** An entry is returned exactly when it is one of the input entries and
      the oracle rejects its siret. */
  lemma {:induction false} FailingMembers(data: seq<Entry>, checkSiret: Option<string> -> bool, e: Entry)
    ensures e in Failing(data, checkSiret) <==> e in data && !checkSiret(e.siret)
  {
    if data != [] {
      var init := data[..|data| - 1];
      FailingMembers(init, checkSiret, e);
      assert data == init + [data[|data| - 1]];
    }
  }

  /** When the oracle accepts every siret nothing is returned, and when it
      rejects every siret the input is returned unchanged. */
  lemma {:induction false} FailingExtremes(data: seq<Entry>, checkSiret: Option<string> -> bool)
    ensures (forall i :: 0 <= i < |data| ==> checkSiret(data[i].siret)) ==> Failing(data, checkSiret) == []
    ensures (forall i :: 0 <= i < |data| ==> !checkSiret(data[i].siret)) ==> Failing(data, checkSiret) == data
  {
    if data != [] {
      var init := data[..|data| - 1];
      FailingExtremes(init, checkSiret);
      assert forall i :: 0 <= i < |init| ==> init[i] == data[i];
      assert data == init + [data[|data| - 1]];
    }
  }

  /** The events of the first `k` loop iterations over `data`: each entry is
      looked up, then the progress after it is reported. */
  function Steps(data: seq<Entry>, k: nat): (t: seq<Event>)
    requires k <= |data|
    ensures |t| == 2 * k
  {
    if k == 0 then []
    else Steps(data, k - 1) + [Lookup(data[k - 1].siret), Update(Progress(ProgressAt(k, |data|)))]
  }

  /** Event `2i` is the lookup of entry `i` and event `2i + 1` the progress
      `round(100 * (i + 1) / n)` reported right after it: one lookup per
      entry, in input order, duplicates included, each followed by its update. */
  lemma {:induction false} StepsAt(data: seq<Entry>, k: nat, i: nat)
    requires i < k <= |data|
    ensures Steps(data, k)[2 * i] == Lookup(data[i].siret)
    ensures Steps(data, k)[2 * i + 1] == Update(Progress(ProgressAt(i + 1, |data|)))
  {
    if i < k - 1 {
      StepsAt(data, k - 1, i);
    }
  }

  /** `check_sirets(data)`: the events are the lookups and progress updates
      of `Steps`, then a final `DONE` state with 100; the result is the
      failing entries. */
  method CheckSirets(data: seq<Entry>, checkSiret: Option<string> -> bool)
    returns (errors: seq<Entry>, ghost trace: seq<Event>)
    ensures errors == Failing(data, checkSiret)
    ensures trace == Steps(data, |data|) + [Update(Done(100))]
  {
    errors, trace := [], [];
    var count := |data|;
    for idx := 0 to count
      invariant errors == Failing(data[..idx], checkSiret)
      invariant trace == Steps(data, idx)
    {
      var el := data[idx];
      var siretExists := checkSiret(el.siret);
      trace := trace + [Lookup(el.siret)];
      trace := trace + [Update(Progress(RoundHalfEven(100 * (idx + 1), count)))];
      if !siretExists {
        errors := errors + [el];
      }
      assert data[..idx + 1][..idx] == data[..idx];
    }
    trace := trace + [Update(Done(100))];
    assert data[..count] == data;
  }

  /** The trace as the task's caller sees it: `2n + 1` events, the lookup of
      entry `i` at position `2i`, its progress report right after it, and
      `DONE` with 100 last, also for an empty input. */
  lemma CheckSiretsTrace(data: seq<Entry>, trace: seq<Event>, i: nat)
    requires trace == Steps(data, |data|) + [Update(Done(100))]
    ensures |trace| == 2 * |data| + 1 && trace[2 * |data|] == Update(Done(100))
    ensures i < |data| ==> trace[2 * i] == Lookup(data[i].siret)
    ensures i < |data| ==> trace[2 * i + 1] == Update(Progress(ProgressAt(i + 1, |data|)))
  {
    if i < |data| {
      StepsAt(data, |data|, i);
    }
  }

  /** The two behaviours the repository's tests pin down: a rejected siret
      comes back, an accepted one does not. */
  lemma CheckSiretsExamples()
    ensures Failing([Entry(Some("1234"), None)], _ => false) == [Entry(Some("1234"), None)]
    ensures Failing([Entry(Some("1234"), None)], _ => true) == []
  {
    var d := [Entry(Some("1234"), None)];
    assert d[..0] == [];
  }
}
