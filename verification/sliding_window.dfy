/** The toll-free window rule of the daily total. The ordered passages are cut
    into windows; a window opens at its first passage and ends `duration`
    later (wrapping at midnight, as `TimeOnly.Add` does); a passage not
    strictly later than the open window's end belongs to it. Each window is
    charged its highest fee, never less than zero.

    `Windows` and `WindowedTotal` state this declaratively; `Sweep` is the
    source's single-pass loop, and `SweepIsWindowedTotal` shows they agree. */
module SlidingWindow {

  import opened Wrappers
  import opened Clock
  import opened RuleSets
  import opened Bands

  /** How many leading times of `s` are not strictly later than `end`. */
  function Within(s: seq<Time>, end: Time): (n: nat)
    ensures n <= |s|
    ensures forall i :: 0 <= i < n ==> s[i] <= end
    ensures n < |s| ==> s[n] > end
    decreases |s|
  {
    if |s| == 0 || s[0] > end then 0 else 1 + Within(s[1..], end)
  }

  function Flatten(ws: seq<seq<Time>>): seq<Time>
    decreases |ws|
  {
    if |ws| == 0 then [] else ws[0] + Flatten(ws[1..])
  }

  /** `ws` cuts `ts`, in order, into non-empty windows such that every passage
      after a window's first is at most `duration` after it (modulo the day)
      and every window after the first opens strictly later than the end of
      the one before. */
  ghost predicate IsWindowing(ws: seq<seq<Time>>, ts: seq<Time>, duration: Duration) {
    && Flatten(ws) == ts
    && (forall k :: 0 <= k < |ws| ==> |ws[k]| > 0)
    && (forall k, j :: 0 <= k < |ws| && 0 < j < |ws[k]| ==> ws[k][j] <= Add(ws[k][0], duration))
    && (forall k :: 0 < k < |ws| ==> ws[k][0] > Add(ws[k - 1][0], duration))
  }

  /** The windows of `ts`. */
  function Windows(ts: seq<Time>, duration: Duration): (ws: seq<seq<Time>>)
    ensures IsWindowing(ws, ts, duration)
    decreases |ts|
  {
    if |ts| == 0 then []
    else
      var n := 1 + Within(ts[1..], Add(ts[0], duration));
      var rest := Windows(ts[n..], duration);
      WindowingCons(ts, n, rest, duration);
      [ts[..n]] + rest
  }

  lemma WindowsUnfold(ts: seq<Time>, duration: Duration)
    requires |ts| > 0
    ensures var n := 1 + Within(ts[1..], Add(ts[0], duration));
            Windows(ts, duration) == [ts[..n]] + Windows(ts[n..], duration)
  {
  }

  /** The first window followed by a windowing of what comes after it. */
  lemma WindowingCons(ts: seq<Time>, n: nat, rest: seq<seq<Time>>, duration: Duration)
    requires |ts| > 0 && n == 1 + Within(ts[1..], Add(ts[0], duration))
    requires IsWindowing(rest, ts[n..], duration)
    ensures IsWindowing([ts[..n]] + rest, ts, duration)
  {
    var ws := [ts[..n]] + rest;
    assert |rest| > 0 ==> rest[0][0] == ts[n] by {
      if |rest| > 0 {
        assert Flatten(rest) == rest[0] + Flatten(rest[1..]);
      }
    }
    assert ts[..n] + ts[n..] == ts;
    assert ws[1..] == rest;
    assert forall j :: 0 < j < n ==> ws[0][j] == ts[1..][j - 1];
  }

  lemma FlattenCons(w: seq<Time>, ws: seq<seq<Time>>)
    ensures Flatten([w] + ws) == w + Flatten(ws)
  {
    assert ([w] + ws)[1..] == ws;
  }

  /** In any windowing, the first window is as long as `Windows` makes it,
      and what follows is a windowing of the rest. */
  lemma WindowingFirst(ws: seq<seq<Time>>, ts: seq<Time>, duration: Duration)
    requires IsWindowing(ws, ts, duration) && |ws| > 0
    ensures |ws[0]| == 1 + Within(ts[1..], Add(ts[0], duration))
    ensures ts[..|ws[0]|] == ws[0]
    ensures IsWindowing(ws[1..], ts[|ws[0]|..], duration)
  {
    assert Flatten(ws) == ws[0] + Flatten(ws[1..]);
    var m := |ws[0]|;
    assert ts[..m] == ws[0] && ts[m..] == Flatten(ws[1..]);
    var end := Add(ts[0], duration);
    var q := Within(ts[1..], end);
    // Every passage of the first window is within its end ...
    assert forall j :: 0 <= j < m - 1 ==> ts[1..][j] == ws[0][j + 1];
    // ... and the second window, if any, opens beyond it.
    assert |ws| == 1 ==> Flatten(ws[1..]) == [];
    assert |ws| > 1 ==> Flatten(ws[1..]) == ws[1] + Flatten(ws[2..]);
    assert m < |ts| ==> ts[1..][m - 1] == ws[1][0];
    var rest := ws[1..];
    forall k | 0 < k < |rest|
      ensures rest[k][0] > Add(rest[k - 1][0], duration)
    {
      assert rest[k] == ws[k + 1] && rest[k - 1] == ws[k];
    }
  }

  /** There is only one way to cut `ts` into windows: `Windows` is it. */
  lemma {:induction false} WindowingUnique(ws: seq<seq<Time>>, ts: seq<Time>, duration: Duration)
    requires IsWindowing(ws, ts, duration)
    ensures ws == Windows(ts, duration)
    decreases |ts|
  {
    if |ws| == 0 {
      assert ts == [];
    } else {
      WindowingFirst(ws, ts, duration);
      var m := |ws[0]|;
      WindowingUnique(ws[1..], ts[m..], duration);
      SameFirstWindow(ws, ts, duration);
    }
  }

  /** A cut whose first window is `Windows`' first window and whose other
      windows are `Windows` of the rest is `Windows`. */
  lemma SameFirstWindow(ws: seq<seq<Time>>, ts: seq<Time>, duration: Duration)
    requires |ws| > 0 && |ts| > 0
    requires |ws[0]| == 1 + Within(ts[1..], Add(ts[0], duration)) <= |ts|
    requires ts[..|ws[0]|] == ws[0]
    requires ws[1..] == Windows(ts[|ws[0]|..], duration)
    ensures ws == Windows(ts, duration)
  {
    WindowsUnfold(ts, duration);
    assert ws == [ws[0]] + ws[1..];
  }

  /** The charge of one window: its highest fee, and zero when every fee is
      negative (the source resets the window's top fee to 0 on opening). */
  function Charge(rules: seq<TollRule>, w: seq<Time>): (c: int)
    requires AllPriced(rules, w)
    ensures c >= 0
    ensures forall t :: t in w ==> Fee(rules, t) <= c
    ensures c == 0 || exists t :: t in w && Fee(rules, t) == c
    decreases |w|
  {
    if |w| == 0 then 0
    else
      assert AllPriced(rules, w[1..]) by {
        forall t | t in w[1..]
          ensures Priced(rules, t)
        {
          assert t in w;
        }
      }
      Max(Fee(rules, w[0]), Charge(rules, w[1..]))
  }

  function SumCharges(rules: seq<TollRule>, ws: seq<seq<Time>>): (total: int)
    requires AllPriced(rules, Flatten(ws))
    ensures total >= 0
    ensures |ws| > 0 ==> total >= Charge(rules, ws[0])
    decreases |ws|
  {
    if |ws| == 0 then 0
    else
      assert Flatten(ws) == ws[0] + Flatten(ws[1..]);
      Charge(rules, ws[0]) + SumCharges(rules, ws[1..])
  }

  /** The uncapped daily toll: the sum of the windows' charges. */
  function WindowedTotal(rules: seq<TollRule>, duration: Duration, ts: seq<Time>): (total: int)
    requires AllPriced(rules, ts)
  {
    SumCharges(rules, Windows(ts, duration))
  }

  /** A lone passage is a window of its own, charged its fee (or zero). */
  lemma SingleWindow(rules: seq<TollRule>, duration: Duration, t: Time)
    ensures Windows([t], duration) == [[t]]
    ensures Priced(rules, t) ==> WindowedTotal(rules, duration, [t]) == Max(Fee(rules, t), 0)
  {
    assert [t][1..] == [];
    assert [t][..1] == [t] && [t][1..] == [];
    if Priced(rules, t) {
      assert Windows([t], duration) == [[t]];
      assert [[t]][1..] == [];
      assert Charge(rules, [t]) == Max(Fee(rules, t), 0);
      assert SumCharges(rules, [[t]]) == Charge(rules, [t]) + SumCharges(rules, []);
    }
  }

  /** A passage strictly later than the first window's end opens a window of
      its own. */
  lemma WindowAlone(duration: Duration, ts: seq<Time>)
    requires |ts| >= 2 && ts[1] > Add(ts[0], duration)
    ensures Windows(ts, duration) == [[ts[0]]] + Windows(ts[1..], duration)
  {
    assert Within(ts[1..], Add(ts[0], duration)) == 0;
    assert ts[..1] == [ts[0]];
  }

  /** ... so the first passage is charged alone. */
  lemma {:induction false} SeparateWindow(rules: seq<TollRule>, duration: Duration, ts: seq<Time>)
    requires |ts| >= 2 && ts[1] > Add(ts[0], duration) && AllPriced(rules, ts)
    ensures Priced(rules, ts[0]) && AllPriced(rules, ts[1..])
    ensures Windows(ts, duration) == [[ts[0]]] + Windows(ts[1..], duration)
    ensures WindowedTotal(rules, duration, ts) == Max(Fee(rules, ts[0]), 0) + WindowedTotal(rules, duration, ts[1..])
  {
    AllPricedCons(rules, ts);
    WindowedTotalCons(rules, duration, ts);
    assert Within(ts[1..], Add(ts[0], duration)) == 0;
    assert ts[..1] == [ts[0]] && [ts[0]][1..] == [];
  }

  /** Two band lists that price the same passages at the same fees charge
      the same windows the same. */
  lemma {:induction false} ChargeAgrees(rules: seq<TollRule>, other: seq<TollRule>, w: seq<Time>)
    requires AllPriced(rules, w) && AllPriced(other, w)
    requires forall t :: t in w ==> Fee(rules, t) == Fee(other, t)
    ensures Charge(rules, w) == Charge(other, w)
    decreases |w|
  {
    if |w| > 0 {
      AllPricedCons(rules, w);
      AllPricedCons(other, w);
      assert forall t :: t in w[1..] ==> t in w;
      ChargeAgrees(rules, other, w[1..]);
    }
  }

  lemma {:induction false} SumChargesAgrees(rules: seq<TollRule>, other: seq<TollRule>, ws: seq<seq<Time>>)
    requires AllPriced(rules, Flatten(ws)) && AllPriced(other, Flatten(ws))
    requires forall t :: t in Flatten(ws) ==> Fee(rules, t) == Fee(other, t)
    ensures SumCharges(rules, ws) == SumCharges(other, ws)
    decreases |ws|
  {
    if |ws| > 0 {
      assert Flatten(ws) == ws[0] + Flatten(ws[1..]);
      ChargeAgrees(rules, other, ws[0]);
      SumChargesAgrees(rules, other, ws[1..]);
    }
  }

  /** The windowed total depends on the bands only through the fees of the
      passages themselves. */
  lemma WindowedTotalAgrees(rules: seq<TollRule>, other: seq<TollRule>, duration: Duration, ts: seq<Time>)
    requires AllPriced(rules, ts) && AllPriced(other, ts)
    requires forall t :: t in ts ==> Fee(rules, t) == Fee(other, t)
    ensures WindowedTotal(rules, duration, ts) == WindowedTotal(other, duration, ts)
  {
    SumChargesAgrees(rules, other, Windows(ts, duration));
  }

  /** Each passage comes strictly after the window the one before it opened. */
  predicate Spread(ts: seq<Time>, duration: Duration)
  {
    forall i :: 0 < i < |ts| ==> ts[i] > Add(ts[i - 1], duration)
  }

  /** The sum of every passage's own fee, each floored at zero. */
  function FullFees(rules: seq<TollRule>, ts: seq<Time>): (total: int)
    requires AllPriced(rules, ts)
    ensures total >= 0
    decreases |ts|
  {
    if |ts| == 0 then 0
    else
      AllPricedCons(rules, ts);
      Max(Fee(rules, ts[0]), 0) + FullFees(rules, ts[1..])
  }

  lemma SpreadTail(ts: seq<Time>, duration: Duration)
    requires |ts| > 0 && Spread(ts, duration)
    ensures Spread(ts[1..], duration)
  {
    forall i | 0 < i < |ts[1..]|
      ensures ts[1..][i] > Add(ts[1..][i - 1], duration)
    {
      assert ts[1..][i] == ts[i + 1] && ts[1..][i - 1] == ts[i];
    }
  }

  /** Passages spread further apart than the window are each a window of
      their own. */
  lemma {:induction false} SpreadWindows(duration: Duration, ts: seq<Time>)
    requires Spread(ts, duration)
    ensures |Windows(ts, duration)| == |ts|
    ensures forall i :: 0 <= i < |ts| ==> Windows(ts, duration)[i] == [ts[i]]
    decreases |ts|
  {
    if |ts| == 1 {
      SingleWindow([], duration, ts[0]);
      assert ts == [ts[0]];
    } else if |ts| >= 2 {
      var ws := Windows(ts, duration);
      WindowAlone(duration, ts);
      SpreadTail(ts, duration);
      SpreadWindows(duration, ts[1..]);
      forall i | 0 <= i < |ts|
        ensures ws[i] == [ts[i]]
      {
        if i > 0 {
          assert ws[i] == Windows(ts[1..], duration)[i - 1];
        }
      }
    }
  }

  /** ... and each is charged in full. */
  lemma {:induction false} SpreadTotal(rules: seq<TollRule>, duration: Duration, ts: seq<Time>)
    requires Spread(ts, duration) && AllPriced(rules, ts)
    ensures WindowedTotal(rules, duration, ts) == FullFees(rules, ts)
    decreases |ts|
  {
    if |ts| == 1 {
      assert ts == [ts[0]];
      SingleWindow(rules, duration, ts[0]);
    } else if |ts| >= 2 {
      SeparateWindow(rules, duration, ts);
      SpreadTail(ts, duration);
      SpreadTotal(rules, duration, ts[1..]);
      AllPricedCons(rules, ts);
    }
  }

  /** Two passages, the second at most `duration` after the first (the end
      itself included): one window, charged only the higher fee. */
  lemma SharedWindow(rules: seq<TollRule>, duration: Duration, a: Time, b: Time)
    requires b <= Add(a, duration) && Priced(rules, a) && Priced(rules, b)
    ensures AllPriced(rules, [a, b])
    ensures Windows([a, b], duration) == [[a, b]]
    ensures WindowedTotal(rules, duration, [a, b]) == Max(Max(Fee(rules, a), Fee(rules, b)), 0)
  {
    var ts := [a, b];
    assert ts[1..] == [b] && [b][1..] == [];
    assert Within(ts[1..], Add(a, duration)) == 1;
    assert ts[..2] == ts && ts[2..] == [];
    assert Windows(ts, duration) == [ts] + Windows([], duration);
    assert [[a, b]][1..] == [];
    assert Charge(rules, ts) == Max(Fee(rules, a), Max(Fee(rules, b), 0));
    assert SumCharges(rules, [[a, b]]) == Charge(rules, ts) + SumCharges(rules, []);
  }

  // ---- The source's loop ------------------------------------------------------

  /** The loop variables: the running total, the open window's start (absent
      before the first passage) and end, and the top fee seen in it. */
  datatype SweepState = SweepState(total: int, windowStart: Option<Time>, windowEnd: Time, windowTop: int)

  const Initial := SweepState(0, None, 0, 0)

  predicate OpensWindow(st: SweepState, t: Time) {
    st.windowStart.None? || t > st.windowEnd
  }

  /** One iteration: flush and reopen if `t` is past the window, then keep the
      larger of `fee` and the window's top fee. */
  function Step(st: SweepState, t: Time, fee: int, duration: Duration): SweepState {
    var open :=
      if OpensWindow(st, t) then SweepState(st.total + st.windowTop, Some(t), Add(t, duration), 0)
      else st;
    open.(windowTop := Max(fee, open.windowTop))
  }

  /** Runs the loop over `ts` from state `st`; `None` when a passage has no
      band (LINQ `First` throws). */
  function RunFrom(rules: seq<TollRule>, duration: Duration, ts: seq<Time>, st: SweepState): (r: Option<SweepState>)
    ensures r.Some? <==> AllPriced(rules, ts)
    decreases |ts|
  {
    if |ts| == 0 then Some(st)
    else
      AllPricedCons(rules, ts);
      if !Priced(rules, ts[0]) then None
      else RunFrom(rules, duration, ts[1..], Step(st, ts[0], Fee(rules, ts[0]), duration))
  }

  /** The loop followed by the final flush of the last window. */
  function Sweep(rules: seq<TollRule>, duration: Duration, ts: seq<Time>): Option<int> {
    var run := RunFrom(rules, duration, ts, Initial);
    if run.None? then None else Some(run.value.total + run.value.windowTop)
  }

  lemma AllPricedCons(rules: seq<TollRule>, s: seq<Time>)
    requires |s| > 0
    ensures AllPriced(rules, s) <==> Priced(rules, s[0]) && AllPriced(rules, s[1..])
  {
    assert s == [s[0]] + s[1..];
  }

  lemma AllPricedSplit(rules: seq<TollRule>, s: seq<Time>, k: nat)
    requires k <= |s| && AllPriced(rules, s)
    ensures AllPriced(rules, s[..k]) && AllPriced(rules, s[k..])
  {
    assert s == s[..k] + s[k..];
  }

  /** The head window of `s` and the rest, as `WindowedTotal` counts them. */
  lemma WindowedTotalCons(rules: seq<TollRule>, duration: Duration, s: seq<Time>)
    requires |s| > 0 && AllPriced(rules, s)
    ensures var n := 1 + Within(s[1..], Add(s[0], duration));
            AllPriced(rules, s[..n]) && AllPriced(rules, s[n..])
            && WindowedTotal(rules, duration, s) == Charge(rules, s[..n]) + WindowedTotal(rules, duration, s[n..])
  {
    var n := 1 + Within(s[1..], Add(s[0], duration));
    AllPricedSplit(rules, s, n);
    var ws := Windows(s, duration);
    assert ws == [s[..n]] + Windows(s[n..], duration);
    assert ws[1..] == Windows(s[n..], duration);
  }

  /** The window charge unfolds at its first passage. */
  lemma ChargeCons(rules: seq<TollRule>, s: seq<Time>, n: nat)
    requires 0 < n <= |s| && AllPriced(rules, s[..n])
    ensures AllPriced(rules, s[1..][..n - 1])
    ensures Charge(rules, s[..n]) == Max(Fee(rules, s[0]), Charge(rules, s[1..][..n - 1]))
  {
    assert s[..n][1..] == s[1..][..n - 1];
  }

  /** From a state with a window open, the loop finishes with the open window
      charged its top fee together with the passages still inside it, plus
      the windows of everything after. */
  lemma {:induction false} RunFromOpen(rules: seq<TollRule>, duration: Duration, s: seq<Time>, st: SweepState)
    requires st.windowStart.Some? && st.windowTop >= 0
    ensures RunFrom(rules, duration, s, st).Some? <==> AllPriced(rules, s)
    ensures AllPriced(rules, s) ==>
              var k := Within(s, st.windowEnd);
              AllPriced(rules, s[..k]) && AllPriced(rules, s[k..]) &&
              var fin := RunFrom(rules, duration, s, st).value;
              fin.total + fin.windowTop
                == st.total + Max(st.windowTop, Charge(rules, s[..k])) + WindowedTotal(rules, duration, s[k..])
    decreases |s|
  {
    if |s| == 0 {
    } else {
      AllPricedCons(rules, s);
      if Priced(rules, s[0]) {
        var fee := Fee(rules, s[0]);
        var st1 := Step(st, s[0], fee, duration);
        RunFromOpen(rules, duration, s[1..], st1);
        if AllPriced(rules, s) {
          var k := Within(s, st.windowEnd);
          AllPricedSplit(rules, s, k);
          var k1 := Within(s[1..], st1.windowEnd);
          AllPricedSplit(rules, s[1..], k1);
          if s[0] > st.windowEnd {
            assert k == 0;
            WindowedTotalCons(rules, duration, s);
            ChargeCons(rules, s, 1 + k1);
            assert s[1 + k1..] == s[1..][k1..];
          } else {
            assert k == 1 + k1;
            ChargeCons(rules, s, k);
            assert s[k..] == s[1..][k1..];
          }
        }
      }
    }
  }

  /** The source's loop computes the sum of the window charges, and throws
      exactly when some passage has no band. */
  lemma SweepIsWindowedTotal(rules: seq<TollRule>, duration: Duration, ts: seq<Time>)
    ensures Sweep(rules, duration, ts).Some? <==> AllPriced(rules, ts)
    ensures AllPriced(rules, ts) ==> Sweep(rules, duration, ts) == Some(WindowedTotal(rules, duration, ts))
  {
    if AllPriced(rules, ts) {
      SweepPriced(rules, duration, ts);
    } else {
      SweepUnpriced(rules, duration, ts);
    }
  }

  lemma SweepUnpriced(rules: seq<TollRule>, duration: Duration, ts: seq<Time>)
    requires !AllPriced(rules, ts)
    ensures Sweep(rules, duration, ts).None?
  {
    AllPricedCons(rules, ts);
    if Priced(rules, ts[0]) {
      var st1 := Step(Initial, ts[0], Fee(rules, ts[0]), duration);
      RunFromOpen(rules, duration, ts[1..], st1);
    }
  }

  lemma SweepPriced(rules: seq<TollRule>, duration: Duration, ts: seq<Time>)
    requires AllPriced(rules, ts)
    ensures Sweep(rules, duration, ts) == Some(WindowedTotal(rules, duration, ts))
  {
    if |ts| > 0 {
      AllPricedCons(rules, ts);
      var st1 := Step(Initial, ts[0], Fee(rules, ts[0]), duration);
      RestAfterFirst(rules, duration, ts);
    } else {
      assert Windows(ts, duration) == [];
    }
  }

  /** After the first passage opens the first window, the rest of the loop
      yields the windowed total. */
  lemma RestAfterFirst(rules: seq<TollRule>, duration: Duration, ts: seq<Time>)
    requires |ts| > 0 && AllPriced(rules, ts)
    ensures Priced(rules, ts[0])
    ensures var st1 := Step(Initial, ts[0], Fee(rules, ts[0]), duration);
            && RunFrom(rules, duration, ts[1..], st1).Some?
            && RunFrom(rules, duration, ts[1..], st1).value.total + RunFrom(rules, duration, ts[1..], st1).value.windowTop
               == WindowedTotal(rules, duration, ts)
  {
    AllPricedCons(rules, ts);
    var fee := Fee(rules, ts[0]);
    var st1 := SweepState(0, Some(ts[0]), Add(ts[0], duration), Max(fee, 0));
    assert Step(Initial, ts[0], fee, duration) == st1;
    RunFromOpen(rules, duration, ts[1..], st1);
    SweepFirstWindow(rules, duration, ts);
  }

  lemma SweepFirstWindow(rules: seq<TollRule>, duration: Duration, ts: seq<Time>)
    requires |ts| > 0 && AllPriced(rules, ts)
    ensures var k1 := Within(ts[1..], Add(ts[0], duration));
            AllPriced(rules, ts[1..][..k1]) && AllPriced(rules, ts[1..][k1..])
            && WindowedTotal(rules, duration, ts)
               == Max(Max(Fee(rules, ts[0]), 0), Charge(rules, ts[1..][..k1])) + WindowedTotal(rules, duration, ts[1..][k1..])
  {
    AllPricedCons(rules, ts);
    var k1 := Within(ts[1..], Add(ts[0], duration));
    AllPricedSplit(rules, ts[1..], k1);
    WindowedTotalCons(rules, duration, ts);
    ChargeCons(rules, ts, 1 + k1);
    assert ts[1 + k1..] == ts[1..][k1..];
  }
}
