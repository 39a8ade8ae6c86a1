/** The watcher that turns sustained low disk space into a trigger: a sliding window of verdicts, a
    four-fifths threshold and a cooldown. Times are nanoseconds. */
module PressureWatch {
  import opened Options
  import opened Sets

  datatype Reading = Reading(memRatio: real, freeDiskGB: real, diskMeasured: bool)

  datatype Threshold = Threshold(diskLowGB: int, sampleInterval: int, debounceWindow: int)

  /** Sixty minutes. */
  const COOLDOWN := 3_600_000_000_000

  // ---- Merging samplers ----

  const NOTHING := Reading(0.0, 0.0, false)

  function Merge(a: Reading, r: Reading): Reading {
    var mem := if r.memRatio > a.memRatio then r.memRatio else a.memRatio;
    if r.diskMeasured && (!a.diskMeasured || r.freeDiskGB < a.freeDiskGB) then Reading(mem, r.freeDiskGB, true)
    else a.(memRatio := mem)
  }

  /** `out` is what some readings amount to: the highest memory ratio, never below zero, and the
      least free space among the readings that measured it. */
  ghost predicate Combines(readings: seq<Reading>, out: Reading) {
    && out.memRatio >= 0.0 && (forall r :: r in readings ==> r.memRatio <= out.memRatio)
    && (out.memRatio == 0.0 || exists r :: r in readings && r.memRatio == out.memRatio)
    && (out.diskMeasured <==> exists r :: r in readings && r.diskMeasured)
    && (out.diskMeasured ==>
          && (forall r :: r in readings && r.diskMeasured ==> out.freeDiskGB <= r.freeDiskGB)
          && (exists r :: r in readings && r.diskMeasured && r.freeDiskGB == out.freeDiskGB))
    && (!out.diskMeasured ==> out.freeDiskGB == 0.0)
  }

  lemma MergeCombines(readings: seq<Reading>, a: Reading, r: Reading)
    requires Combines(readings, a)
    ensures Combines(readings + [r], Merge(a, r))
  {
    var all, out := readings + [r], Merge(a, r);
    assert r in all && forall x :: x in readings ==> x in all;
    assert forall x :: x in all ==> x in readings || x == r;
    if out.memRatio == a.memRatio && a.memRatio != 0.0 {
      var x :| x in readings && x.memRatio == a.memRatio;
      assert x in all && x.memRatio == out.memRatio;
    }
    if out.diskMeasured && (out.freeDiskGB != r.freeDiskGB || !r.diskMeasured) {
      var x :| x in readings && x.diskMeasured && x.freeDiskGB == a.freeDiskGB;
      assert x in all;
    }
  }

  /** One reading from several samplers; any failing sampler fails the sample. */
  method SampleAll(answers: seq<Option<Reading>>) returns (out: Option<Reading>)
    ensures out.None? <==> exists i :: 0 <= i < |answers| && answers[i].None?
    ensures out.Some? ==> Combines(seq(|answers|, i requires 0 <= i < |answers| && answers[i].Some? => answers[i].value), out.value)
  {
    var merged := NOTHING;
    ghost var got: seq<Reading> := [];
    for i := 0 to |answers|
      invariant |got| == i && forall k :: 0 <= k < i ==> answers[k] == Some(got[k])
      invariant Combines(got, merged)
    {
      if answers[i].None? {
        return None;
      }
      var r := answers[i].value;
      MergeCombines(got, merged, r);
      if r.memRatio > merged.memRatio {
        merged := merged.(memRatio := r.memRatio);
      }
      if r.diskMeasured && (!merged.diskMeasured || r.freeDiskGB < merged.freeDiskGB) {
        merged := merged.(freeDiskGB := r.freeDiskGB, diskMeasured := true);
      }
      got := got + [r];
    }
    assert got == seq(|answers|, i requires 0 <= i < |answers| && answers[i].Some? => answers[i].value);
    return Some(merged);
  }

  // ---- The watch ----

  /** One turn of the ticker: the sample, the clock when the cooldown is checked, and the clock
      right after, when a trigger is noted. */
  datatype Turn = Turn(sample: Option<Reading>, checkedAt: int, notedAt: int)

  /** A trigger: at which turn, and the two clock readings. */
  datatype Fire = Fire(turn: nat, checkedAt: int, notedAt: int)

  function BufLen(th: Threshold): (n: nat)
    requires th.sampleInterval > 0
    ensures n >= 3
  {
    // Integer division that truncates; a negative quotient is below three either way.
    if th.debounceWindow < 0 || th.debounceWindow / th.sampleInterval < 3 then 3
    else th.debounceWindow / th.sampleInterval
  }

  /** Only a measured disk counts. */
  predicate High(r: Reading, th: Threshold) {
    r.diskMeasured && r.freeDiskGB <= th.diskLowGB as real
  }

  /** The verdicts of the successful samples, in order. */
  function Verdicts(turns: seq<Turn>, th: Threshold): seq<bool> {
    if turns == [] then []
    else
      var last := turns[|turns| - 1];
      Verdicts(turns[..|turns| - 1], th) + (if last.sample.Some? then [High(last.sample.value, th)] else [])
  }

  /** The last `n` elements, or all of them if there are fewer. */
  function LastOf<T>(s: seq<T>, n: nat): (r: seq<T>)
    ensures |r| <= n
  {
    if |s| <= n then s else s[|s| - n..]
  }

  function Count(s: seq<bool>): nat {
    if s == [] then 0 else Count(s[..|s| - 1]) + (if s[|s| - 1] then 1 else 0)
  }

  /** The window after these turns is full and at least four fifths high, and the last turn brought
      a sample. */
  predicate Sustained(turns: seq<Turn>, th: Threshold)
    requires th.sampleInterval > 0
  {
    var window := LastOf(Verdicts(turns, th), BufLen(th));
    && turns != [] && turns[|turns| - 1].sample.Some?
    && |window| == BufLen(th) && 5 * Count(window) >= 4 * |window|
  }

  predicate CooledDown(fires: seq<Fire>, now: int) {
    fires == [] || now - fires[|fires| - 1].notedAt > COOLDOWN
  }

  /** The triggers of a run: at each turn one is added exactly when the window is sustained and the
      last trigger is more than the cooldown ago. */
  function Fires(turns: seq<Turn>, th: Threshold): seq<Fire>
    requires th.sampleInterval > 0
  {
    if turns == [] then []
    else
      var n := |turns| - 1;
      var before := Fires(turns[..n], th);
      if Sustained(turns, th) && CooledDown(before, turns[n].checkedAt) then
        before + [Fire(n, turns[n].checkedAt, turns[n].notedAt)]
      else before
  }

  method CountHigh(buf: seq<bool>) returns (n: nat)
    ensures n == Count(buf)
  {
    n := 0;
    for i := 0 to |buf|
      invariant n == Count(buf[..i])
    {
      assert buf[..i + 1][..i] == buf[..i];
      if buf[i] {
        n := n + 1;
      }
    }
    assert buf[..|buf|] == buf;
  }

  /** Dropping the oldest verdict of a full buffer and adding the newest keeps the last ones. */
  lemma WindowSlides(verdicts: seq<bool>, v: bool, n: nat, buf: seq<bool>)
    requires n > 0 && buf == LastOf(verdicts, n)
    ensures LastOf(verdicts + [v], n) == (if |buf| >= n then buf[1..] else buf) + [v]
  {
  }

  lemma Scaled(x: real, y: real, a: real)
    requires a > 0.0 && x < y
    ensures x * a < y * a
  {
    assert (y - x) * a > 0.0;
  }

  lemma FourFifths(high: nat, all: nat)
    requires all > 0
    ensures (high as real) / (all as real) >= 0.8 <==> 5 * high >= 4 * all
  {
    var h, a := high as real, all as real;
    var q := h / a;
    assert q * a == h;
    if q < 0.8 {
      Scaled(q, 0.8, a);
    } else if q > 0.8 {
      Scaled(0.8, q, a);
    }
    assert q >= 0.8 <==> h >= 0.8 * a;
    assert h >= 0.8 * a <==> 5.0 * h >= 4.0 * a;
    assert 5.0 * h == (5 * high) as real && 4.0 * a == (4 * all) as real;
  }

  /** The fraction of high verdicts against 0.8, as the watcher computes it. */
  method MostlyHigh(buf: seq<bool>) returns (b: bool)
    requires buf != []
    ensures b == (5 * Count(buf) >= 4 * |buf|)
  {
    var highCount := CountHigh(buf);
    var frac := (highCount as real) / (|buf| as real);
    FourFifths(highCount, |buf|);
    b := frac >= 0.8;
  }

  /** The buffer and the triggers after one more turn. */
  lemma OneTurn(turns: seq<Turn>, th: Threshold, i: nat)
    requires th.sampleInterval > 0 && i < |turns|
    ensures var t, verdicts := turns[i], Verdicts(turns[..i], th);
            Verdicts(turns[..i + 1], th) == if t.sample.Some? then verdicts + [High(t.sample.value, th)] else verdicts
    ensures var t, window := turns[i], LastOf(Verdicts(turns[..i + 1], th), BufLen(th));
            Fires(turns[..i + 1], th) ==
            if t.sample.Some? && |window| == BufLen(th) && 5 * Count(window) >= 4 * |window|
               && CooledDown(Fires(turns[..i], th), t.checkedAt)
            then Fires(turns[..i], th) + [Fire(i, t.checkedAt, t.notedAt)]
            else Fires(turns[..i], th)
  {
    hide BufLen;
    assert turns[..i + 1][..i] == turns[..i];
  }

  method Watch(turns: seq<Turn>, th: Threshold) returns (fires: seq<Fire>, buf: seq<bool>)
    requires th.sampleInterval > 0
    ensures fires == Fires(turns, th)
    ensures buf == LastOf(Verdicts(turns, th), BufLen(th))
  {
    hide Fires, Verdicts, Count, BufLen, Sustained, LastOf;
    var bufLen := BufLen(th);
    NothingYet(th);
    buf := [];
    fires := [];
    var lastFire: Option<int> := None;
    for i := 0 to |turns|
      invariant buf == LastOf(Verdicts(turns[..i], th), bufLen)
      invariant fires == Fires(turns[..i], th)
      invariant lastFire == if fires == [] then None else Some(fires[|fires| - 1].notedAt)
    {
      var t := turns[i];
      OneTurn(turns, th, i);
      if t.sample.Some? {
        var r := t.sample.value;
        var high := r.diskMeasured && r.freeDiskGB <= th.diskLowGB as real;
        WindowSlides(Verdicts(turns[..i], th), high, bufLen, buf);
        if |buf| >= bufLen {
          buf := buf[1..];
        }
        buf := buf + [high];
        if |buf| >= bufLen {
          var sustained := MostlyHigh(buf);
          if sustained && (lastFire.None? || t.checkedAt - lastFire.value > COOLDOWN) {
            lastFire := Some(t.notedAt);
            fires := fires + [Fire(i, t.checkedAt, t.notedAt)];
          }
        }
      }
    }
    assert turns[..|turns|] == turns;
  }

  lemma NothingYet(th: Threshold)
    requires th.sampleInterval > 0
    ensures Verdicts([], th) == [] && Fires([], th) == [] && LastOf(Verdicts([], th), BufLen(th)) == []
  {
  }

  // ---- What the triggers of any run look like ----

  /** A trigger of these turns: noted at a turn whose window is full and at least four fifths high. */
  predicate Genuine(f: Fire, turns: seq<Turn>, th: Threshold)
    requires th.sampleInterval > 0
  {
    f.turn < |turns| && Sustained(turns[..f.turn + 1], th)
    && f == Fire(f.turn, turns[f.turn].checkedAt, turns[f.turn].notedAt)
  }

  lemma GenuineStays(f: Fire, turns: seq<Turn>, th: Threshold)
    requires th.sampleInterval > 0 && turns != [] && Genuine(f, turns[..|turns| - 1], th)
    ensures Genuine(f, turns, th)
  {
    assert turns[..|turns| - 1][..f.turn + 1] == turns[..f.turn + 1];
  }

  /** Consecutive triggers are more than the cooldown apart. */
  ghost predicate Spaced(fires: seq<Fire>) {
    forall j, k :: 0 <= j && k == j + 1 && k < |fires| ==> fires[k].checkedAt - fires[j].notedAt > COOLDOWN
  }

  /** Every trigger is genuine, and consecutive triggers are more than the cooldown apart. */
  lemma {:induction false} FiresAreSpaced(turns: seq<Turn>, th: Threshold)
    requires th.sampleInterval > 0
    ensures forall f :: f in Fires(turns, th) ==> Genuine(f, turns, th)
    ensures Spaced(Fires(turns, th))
  {
    hide Sustained;
    if turns != [] {
      var n := |turns| - 1;
      FiresAreSpaced(turns[..n], th);
      var before, fires := Fires(turns[..n], th), Fires(turns, th);
      assert turns[..n + 1] == turns;
      forall f | f in fires ensures Genuine(f, turns, th) {
        if f in before {
          GenuineStays(f, turns, th);
        }
      }
      if fires != before {
        assert fires == before + [Fire(n, turns[n].checkedAt, turns[n].notedAt)];
      }
    }
  }

  lemma {:induction false} FiresGrow(turns: seq<Turn>, th: Threshold, n: nat)
    requires th.sampleInterval > 0 && n <= |turns|
    ensures Fires(turns[..n], th) <= Fires(turns, th)
  {
    if n < |turns| {
      assert turns[..|turns| - 1][..n] == turns[..n];
      FiresGrow(turns[..|turns| - 1], th, n);
    } else {
      assert turns[..n] == turns;
    }
  }

  /** And none is missed: a turn with a sustained window fires, unless the last trigger before it
      is within the cooldown. */
  lemma SustainedFires(turns: seq<Turn>, th: Threshold, i: nat)
    requires th.sampleInterval > 0 && i < |turns| && Sustained(turns[..i + 1], th)
    ensures var before, fires := Fires(turns[..i], th), Fires(turns, th);
            && before <= fires
            && (Fire(i, turns[i].checkedAt, turns[i].notedAt) in fires <==>
                  before == [] || turns[i].checkedAt - before[|before| - 1].notedAt > COOLDOWN)
  {
    hide Sustained;
    assert turns[..i + 1][..i] == turns[..i];
    FiresGrow(turns, th, i);
    FiresGrow(turns, th, i + 1);
    FiresAreSpaced(turns, th);
    FiresAreSpaced(turns[..i], th);
    var before, upTo, fires := Fires(turns[..i], th), Fires(turns[..i + 1], th), Fires(turns, th);
    var f := Fire(i, turns[i].checkedAt, turns[i].notedAt);
    if CooledDown(before, turns[i].checkedAt) {
      assert upTo == before + [f] && fires[|before|] == f;
    } else {
      forall k | 0 <= k < |fires| ensures fires[k] != f {
        if k >= |upTo| {
          LaterFires(turns, th, i + 1, k);
        } else {
          assert fires[k] == upTo[k] == before[k] && before[k] in before;
          assert Genuine(before[k], turns[..i], th);
        }
      }
    }
  }

  /** Triggers past those of a prefix come from turns past it. */
  lemma {:induction false} LaterFires(turns: seq<Turn>, th: Threshold, n: nat, k: nat)
    requires th.sampleInterval > 0 && n <= |turns| && |Fires(turns[..n], th)| <= k < |Fires(turns, th)|
    ensures Fires(turns, th)[k].turn >= n
  {
    hide Sustained;
    assert turns[..|turns|] == turns;
    if n < |turns| {
      assert turns[..|turns| - 1][..n] == turns[..n];
      if k < |Fires(turns[..|turns| - 1], th)| {
        LaterFires(turns[..|turns| - 1], th, n, k);
      }
    }
  }

  /** The merged reading is high exactly when some reading that measured its disk found no more free
      space than the threshold: an unmeasured one neither counts as high nor lowers the minimum. */
  lemma HighIffSomeMeasuredIs(readings: seq<Reading>, out: Reading, th: Threshold)
    requires Combines(readings, out)
    ensures High(out, th) <==> exists r :: r in readings && r.diskMeasured && r.freeDiskGB <= th.diskLowGB as real
  {
    if out.diskMeasured {
      var least :| least in readings && least.diskMeasured && least.freeDiskGB == out.freeDiskGB;
    }
  }

  // ---- What a trigger means ----

  /** The window is the debounce window counted in samples, and at least three samples. */
  lemma BufLenIs(th: Threshold)
    requires th.sampleInterval > 0
    ensures BufLen(th) > 3 ==> BufLen(th) * th.sampleInterval <= th.debounceWindow < (BufLen(th) + 1) * th.sampleInterval
    ensures BufLen(th) == 3 ==> th.debounceWindow < 4 * th.sampleInterval
  {
    var n := th.debounceWindow / th.sampleInterval;
    assert th.debounceWindow == n * th.sampleInterval + th.debounceWindow % th.sampleInterval;
    if n < 3 && th.debounceWindow >= 0 {
      SmallQuotient(n, th.sampleInterval);
    }
  }

  lemma SmallQuotient(n: int, d: int)
    requires n < 3 && d > 0
    ensures n * d <= 2 * d
  {
    var k := 2 - n;
    assert k * d >= 0;
    assert 2 * d - n * d == k * d;
  }

  /** Positions of the high verdicts. */
  ghost function HighOnes(s: seq<bool>): set<int> {
    set i | 0 <= i < |s| && s[i]
  }

  lemma {:induction false} CountIs(s: seq<bool>)
    ensures Count(s) == |HighOnes(s)|
  {
    if s == [] {
      assert HighOnes(s) == {};
    } else {
      var n := |s| - 1;
      CountIs(s[..n]);
      assert HighOnes(s) == HighOnes(s[..n]) + if s[n] then {n} else {};
    }
  }

  /** A successful sample that measured its disk and found too little free space. */
  predicate LowOnDisk(t: Turn, th: Threshold) {
    t.sample.Some? && t.sample.value.diskMeasured && t.sample.value.freeDiskGB <= th.diskLowGB as real
  }

  /** The turns with a successful sample, in order. */
  function Sampled(turns: seq<Turn>): seq<Turn> {
    if turns == [] then []
    else Sampled(turns[..|turns| - 1]) + if turns[|turns| - 1].sample.Some? then [turns[|turns| - 1]] else []
  }

  lemma {:induction false} VerdictsAre(turns: seq<Turn>, th: Threshold)
    ensures |Verdicts(turns, th)| == |Sampled(turns)|
    ensures forall i :: 0 <= i < |Sampled(turns)| ==> Verdicts(turns, th)[i] == LowOnDisk(Sampled(turns)[i], th)
    ensures forall i :: 0 <= i < |Sampled(turns)| ==> Sampled(turns)[i] in turns && Sampled(turns)[i].sample.Some?
  {
    if turns != [] {
      VerdictsAre(turns[..|turns| - 1], th);
    }
  }

  /** The last `n` sampled turns, or all of them, of which `low` found too little space. */
  ghost function LowAmong(turns: seq<Turn>, n: nat, th: Threshold): set<int> {
    var sampled := Sampled(turns);
    set i | |sampled| - n <= i < |sampled| && 0 <= i && LowOnDisk(sampled[i], th)
  }

  /** A window is sustained when the last turn has a sample, there have been enough samples, and of the
      last so many at least four in five found too little space. */
  lemma SustainedIs(turns: seq<Turn>, th: Threshold)
    requires th.sampleInterval > 0
    ensures Sustained(turns, th) <==>
            && turns != [] && turns[|turns| - 1].sample.Some?
            && |Sampled(turns)| >= BufLen(th)
            && 5 * |LowAmong(turns, BufLen(th), th)| >= 4 * BufLen(th)
  {
    hide BufLen, Verdicts, Count, Sampled;
    var n, verdicts := BufLen(th), Verdicts(turns, th);
    VerdictsAre(turns, th);
    var window := LastOf(verdicts, n);
    CountIs(window);
    if |verdicts| >= n {
      var from := |verdicts| - n;
      assert forall i :: 0 <= i < n ==> window[i] == verdicts[from + i];
      ShiftedSize(HighOnes(window), LowAmong(turns, n, th), from);
    }
  }

  lemma {:induction false} ShiftedSize(a: set<int>, b: set<int>, shift: int)
    requires forall i :: i in a ==> i + shift in b
    requires forall j :: j in b ==> j - shift in a
    ensures |a| == |b|
  {
    if a == {} {
      assert forall j :: j !in b;
      assert b == {};
    } else {
      var i := Pick(a);
      forall k | k in a - {i} ensures k + shift in b - {i + shift} {
      }
      ShiftedSize(a - {i}, b - {i + shift}, shift);
    }
  }

  /** Consecutive triggers of any run are more than sixty minutes apart. */
  lemma AnHourApart(turns: seq<Turn>, th: Threshold, j: nat)
    requires th.sampleInterval > 0 && j + 1 < |Fires(turns, th)|
    ensures Fires(turns, th)[j + 1].checkedAt - Fires(turns, th)[j].notedAt > 60 * 60 * 1_000_000_000
  {
    FiresAreSpaced(turns, th);
  }
}
