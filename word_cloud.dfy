/**
 * The word-cloud layout engine of the skills section: labels sorted by
 * weight, a bounded spiral search for a free, in-bounds spot for each, and
 * a random fallback spot when the search fails.
 *
 * Geometry uses exact reals. `Math.cos`, `Math.sin` and `Math.random` are
 * parameters: `cos` and `sin` are arbitrary functions and `random(n)` is the
 * n-th value `Math.random()` returns during one layout run.
 */
module WordCloud {
  import Sorting

  const CenterX: real := 400.0
  const CenterY: real := 225.0
  const CanvasWidth: real := 800.0
  const CanvasHeight: real := 450.0
  const Padding: real := 10.0
  const MaxAttempts: nat := 100
  /** `Math.PI * 2` as the double the engine compares against. */
  const TwoPi: real := 6.283185307179586

  datatype Word = Word(text: string, weight: real)

  /** A laid-out label: the word's fields plus position, font size and rotation in degrees. */
  datatype Placed = Placed(text: string, weight: real, x: real, y: real, fontSize: real, rotation: real)

  datatype Rect = Rect(x: real, y: real, width: real, height: real)

  /** A value of `Math.random()`. */
  type Unit = r: real | 0.0 <= r < 1.0

  /** Linear map of weight 2..9 onto font size 20..72, with no clamping outside that range. */
  function GetFontSize(weight: real): (r: real)
    ensures weight == 2.0 ==> r == 20.0
    ensures weight == 9.0 ==> r == 72.0
    ensures weight < 2.0 ==> r < 20.0
    ensures weight > 9.0 ==> r > 72.0
  {
    var minSize, maxSize, minWeight, maxWeight := 20.0, 72.0, 2.0, 9.0;
    minSize + ((weight - minWeight) / (maxWeight - minWeight)) * (maxSize - minSize)
  }

  lemma FontSizeStrictlyIncreasing(a: real, b: real)
    requires a < b
    ensures GetFontSize(a) < GetFontSize(b)
  {
  }

  function Weight(w: Word): real {
    w.weight
  }

  /** A copy of the words sorted by the comparator that puts heavier words first. */
  function SortByWeight(words: seq<Word>): seq<Word> {
    Sorting.SortDesc(words, Weight)
  }

  /** The sorted labels are the input labels, heaviest first, ties in input order. */
  lemma SortByWeightFacts(words: seq<Word>)
    ensures |SortByWeight(words)| == |words|
    ensures multiset(SortByWeight(words)) == multiset(words)
    ensures forall i, j :: 0 <= i < j < |words| ==> SortByWeight(words)[i].weight >= SortByWeight(words)[j].weight
    ensures forall v :: Sorting.WithKey(SortByWeight(words), Weight, v) == Sorting.WithKey(words, Weight, v)
  {
    Sorting.SortDescFacts(words, Weight);
    forall v ensures Sorting.WithKey(SortByWeight(words), Weight, v) == Sorting.WithKey(words, Weight, v) {
      Sorting.SortDescStable(words, Weight, v);
    }
  }

  /** Approximate text width: characters times font size times 0.6. */
  function TextWidth(w: Word): real {
    |w.text| as real * GetFontSize(w.weight) * 0.6
  }

  function TextHeight(w: Word): real {
    GetFontSize(w.weight)
  }

  /** The bounding rectangle of `w` centred on (x, y). */
  function RectAt(w: Word, x: real, y: real): Rect {
    Rect(x - TextWidth(w) / 2.0, y - TextHeight(w) / 2.0, TextWidth(w), TextHeight(w))
  }

  /** The padded overlap test against one accepted rectangle. */
  predicate Collides(r: Rect, u: Rect) {
    && r.x < u.x + u.width + Padding
    && r.x + r.width + Padding > u.x
    && r.y < u.y + u.height + Padding
    && r.y + r.height + Padding > u.y
  }

  predicate HasCollision(r: Rect, used: seq<Rect>) {
    exists j :: 0 <= j < |used| && Collides(r, used[j])
  }

  /** The label centred on (x, y) lies strictly inside the 800 x 450 canvas. */
  predicate InBounds(w: Word, x: real, y: real) {
    && x > TextWidth(w) / 2.0 && x < CanvasWidth - TextWidth(w) / 2.0
    && y > TextHeight(w) / 2.0 && y < CanvasHeight - TextHeight(w) / 2.0
  }

  /** A candidate point is accepted: no padded overlap with `used` and in bounds. */
  predicate Fits(w: Word, x: real, y: real, used: seq<Rect>) {
    !HasCollision(RectAt(w, x, y), used) && InBounds(w, x, y)
  }

  /** Angle of attempt k: the angle steps by 0.5 and wraps to 0 after 13 steps. */
  function SpiralAngle(k: nat): real {
    0.5 * ((k % 13) as real)
  }

  /** Radius of attempt k: 30, growing by 20 on every wrap of the angle. */
  function SpiralRadius(k: nat): real {
    30.0 + 20.0 * ((k / 13) as real)
  }

  /** The displacement `radius * cos(angle)` (or `sin`) of a spiral point from the centre. */
  function Offset(radius: real, trig: real): real {
    radius * trig
  }

  /** The point label number `index` (in sorted order) tries on attempt k. */
  function CandidateX(index: nat, k: nat, cos: real -> real): real {
    if index == 0 then CenterX else CenterX + Offset(SpiralRadius(k), cos(SpiralAngle(k)))
  }

  function CandidateY(index: nat, k: nat, sin: real -> real): real {
    if index == 0 then CenterY else CenterY + Offset(SpiralRadius(k), sin(SpiralAngle(k)))
  }

  predicate FitsAt(w: Word, index: nat, k: nat, used: seq<Rect>, cos: real -> real, sin: real -> real) {
    Fits(w, CandidateX(index, k, cos), CandidateY(index, k, sin), used)
  }

  /** How the spiral search ended for one label. */
  datatype Outcome = Spiral(x: real, y: real, attempt: nat) | Fallback

  /** The first accepted attempt from `k` on, or Fallback when attempts k..99 all fail. */
  function FirstFit(w: Word, index: nat, used: seq<Rect>, cos: real -> real, sin: real -> real, k: nat): Outcome
    decreases MaxAttempts - k
  {
    if k >= MaxAttempts then Fallback
    else if FitsAt(w, index, k, used, cos, sin) then Spiral(CandidateX(index, k, cos), CandidateY(index, k, sin), k)
    else FirstFit(w, index, used, cos, sin, k + 1)
  }

  /** One attempt of the search: accept the candidate, or go on with the next attempt. */
  lemma FirstFitStep(w: Word, index: nat, used: seq<Rect>, cos: real -> real, sin: real -> real, k: nat)
    requires k < MaxAttempts
    ensures FitsAt(w, index, k, used, cos, sin) ==>
      FirstFit(w, index, used, cos, sin, k) == Spiral(CandidateX(index, k, cos), CandidateY(index, k, sin), k)
    ensures !FitsAt(w, index, k, used, cos, sin) ==> FirstFit(w, index, used, cos, sin, k) == FirstFit(w, index, used, cos, sin, k + 1)
  {
  }

  /** FirstFit is exactly the first attempt in k0..99 that fits. */
  lemma {:induction false} FirstFitSpec(w: Word, index: nat, used: seq<Rect>, cos: real -> real, sin: real -> real, k0: nat)
    ensures match FirstFit(w, index, used, cos, sin, k0)
      case Spiral(x, y, k) =>
        && k0 <= k < MaxAttempts && FitsAt(w, index, k, used, cos, sin)
        && x == CandidateX(index, k, cos) && y == CandidateY(index, k, sin)
        && forall j :: k0 <= j < k ==> !FitsAt(w, index, j, used, cos, sin)
      case Fallback =>
        forall j :: k0 <= j < MaxAttempts ==> !FitsAt(w, index, j, used, cos, sin)
    decreases MaxAttempts - k0
  {
    if k0 < MaxAttempts && !FitsAt(w, index, k0, used, cos, sin) {
      FirstFitSpec(w, index, used, cos, sin, k0 + 1);
    }
  }

  /** The rectangles of the spiral-placed labels, in placement order; fallback labels add none. */
  function Used(ws: seq<Word>, outs: seq<Outcome>): seq<Rect>
    requires |ws| == |outs|
    decreases |ws|
  {
    if ws == [] then []
    else
      var n := |ws| - 1;
      Used(ws[..n], outs[..n]) + (if outs[n].Spiral? then [RectAt(ws[n], outs[n].x, outs[n].y)] else [])
  }

  /** The spiral outcome of every label of `ws` (already sorted), each searched against the labels before it. */
  function Place(ws: seq<Word>, cos: real -> real, sin: real -> real): (outs: seq<Outcome>)
    ensures |outs| == |ws|
    decreases |ws|
  {
    if ws == [] then []
    else
      var n := |ws| - 1;
      var prev := Place(ws[..n], cos, sin);
      prev + [FirstFit(ws[n], n, Used(ws[..n], prev), cos, sin, 0)]
  }

  /** How many `Math.random()` values the labels with these outcomes consume: one rotation, or x, y and rotation. */
  function Draws(outs: seq<Outcome>): nat
    decreases |outs|
  {
    if outs == [] then 0
    else Draws(outs[..|outs| - 1]) + (if outs[|outs| - 1].Spiral? then 1 else 3)
  }

  /** `p` is the entry the engine emits for `w` with outcome `out`, reading random values from index d on. */
  predicate PlacedAs(p: Placed, w: Word, out: Outcome, random: nat -> Unit, d: nat) {
    && p.text == w.text && p.weight == w.weight && p.fontSize == GetFontSize(w.weight)
    && match out
       case Spiral(x, y, _) =>
         p.x == x && p.y == y && p.rotation == random(d) * 10.0 - 5.0
       case Fallback =>
         && p.x == CenterX + (random(d) - 0.5) * 400.0
         && p.y == CenterY + (random(d + 1) - 0.5) * 300.0
         && p.rotation == random(d + 2) * 10.0 - 5.0
  }

  lemma PlacedAsSpiral(p: Placed, w: Word, x: real, y: real, k: nat, random: nat -> Unit, d: nat)
    requires p == Placed(w.text, w.weight, x, y, GetFontSize(w.weight), random(d) * 10.0 - 5.0)
    ensures PlacedAs(p, w, Spiral(x, y, k), random, d)
  {
  }

  lemma PlacedAsFallback(p: Placed, w: Word, random: nat -> Unit, d: nat)
    requires p == Placed(w.text, w.weight, CenterX + (random(d) - 0.5) * 400.0, CenterY + (random(d + 1) - 0.5) * 300.0,
                         GetFontSize(w.weight), random(d + 2) * 10.0 - 5.0)
    ensures PlacedAs(p, w, Fallback, random, d)
  {
  }

  /** Rotations lie in [-5, 5); fallback positions lie in [200, 600) x [75, 375). */
  lemma PlacedAsRanges(p: Placed, w: Word, out: Outcome, random: nat -> Unit, d: nat)
    requires PlacedAs(p, w, out, random, d)
    ensures -5.0 <= p.rotation < 5.0
    ensures out.Fallback? ==> 200.0 <= p.x < 600.0 && 75.0 <= p.y < 375.0
  {
  }

  function LabelOf(p: Placed): Word {
    Word(p.text, p.weight)
  }

  function Labels(ps: seq<Placed>): (ws: seq<Word>)
    ensures |ws| == |ps| && forall i :: 0 <= i < |ps| ==> ws[i] == LabelOf(ps[i])
  {
    seq(|ps|, i requires 0 <= i < |ps| => LabelOf(ps[i]))
  }

  /** One step of the source's angle/radius update matches the attempt schedule. */
  lemma ScheduleStep(a: nat)
    ensures a % 13 < 12 ==> SpiralAngle(a) + 0.5 <= TwoPi && SpiralAngle(a) + 0.5 == SpiralAngle(a + 1) && SpiralRadius(a + 1) == SpiralRadius(a)
    ensures a % 13 == 12 ==> SpiralAngle(a) + 0.5 > TwoPi && SpiralAngle(a + 1) == 0.0 && SpiralRadius(a + 1) == SpiralRadius(a) + 20.0
    ensures SpiralAngle(a) + 0.5 > TwoPi ==> SpiralAngle(a + 1) == 0.0 && SpiralRadius(a + 1) == SpiralRadius(a) + 20.0
    ensures SpiralAngle(a) + 0.5 <= TwoPi ==> SpiralAngle(a + 1) == SpiralAngle(a) + 0.5 && SpiralRadius(a + 1) == SpiralRadius(a)
  {
    assert a == 13 * (a / 13) + a % 13;
    if a % 13 < 12 {
      assert a + 1 == 13 * (a / 13) + (a % 13 + 1);
      assert (a + 1) % 13 == a % 13 + 1 && (a + 1) / 13 == a / 13;
    } else {
      assert a + 1 == 13 * (a / 13 + 1);
      assert (a + 1) % 13 == 0 && (a + 1) / 13 == a / 13 + 1;
    }
  }

  lemma PlaceSnoc(ws: seq<Word>, n: nat, cos: real -> real, sin: real -> real)
    requires n < |ws|
    ensures Place(ws[..n + 1], cos, sin) == Place(ws[..n], cos, sin) + [FirstFit(ws[n], n, Used(ws[..n], Place(ws[..n], cos, sin)), cos, sin, 0)]
    ensures Used(ws[..n + 1], Place(ws[..n + 1], cos, sin)) ==
            Used(ws[..n], Place(ws[..n], cos, sin)) + (var o := FirstFit(ws[n], n, Used(ws[..n], Place(ws[..n], cos, sin)), cos, sin, 0);
                                                      if o.Spiral? then [RectAt(ws[n], o.x, o.y)] else [])
  {
    var ws' := ws[..n + 1];
    assert ws'[..n] == ws[..n];
    assert ws'[n] == ws[n];
    var outs' := Place(ws', cos, sin);
    assert outs'[..n] == Place(ws[..n], cos, sin);
  }

  lemma DrawsSnoc(outs: seq<Outcome>, o: Outcome)
    ensures Draws(outs + [o]) == Draws(outs) + (if o.Spiral? then 1 else 3)
  {
    assert (outs + [o])[..|outs|] == outs;
  }

  /** The test of one candidate point: its rectangle overlaps no placed label and lies inside the canvas margins. */
  method TryCandidate(word: Word, x: real, y: real, textWidth: real, textHeight: real, usedRects: seq<Rect>)
    returns (accepted: bool)
    requires textWidth == TextWidth(word) && textHeight == TextHeight(word)
    ensures accepted == Fits(word, x, y, usedRects)
  {
    var rect := Rect(x - textWidth / 2.0, y - textHeight / 2.0, textWidth, textHeight);
    var hasCollision := exists j :: 0 <= j < |usedRects| && Collides(rect, usedRects[j]);
    accepted := !hasCollision && x > textWidth / 2.0 && x < CanvasWidth - textWidth / 2.0
                && y > textHeight / 2.0 && y < CanvasHeight - textHeight / 2.0;
  }

  /** The angle steps by 0.5; past 2*pi it wraps to 0 and the radius grows by 20. */
  method AdvanceSpiral(angle: real, radius: real, ghost k: nat) returns (angle': real, radius': real)
    requires angle == SpiralAngle(k)
    ensures angle' == SpiralAngle(k + 1)
    ensures radius == SpiralRadius(k) ==> radius' == SpiralRadius(k + 1)
  {
    ScheduleStep(k);
    angle', radius' := angle + 0.5, radius;
    if angle' > TwoPi {
      angle' := 0.0;
      radius' := radius + 20.0;
    }
  }

  /**
   * The spiral search loop of one label: attempts 0..99 walk the spiral (label 0 stays
   * on the centre) until a candidate fits; the result is the outcome FirstFit describes.
   */
  method SpiralSearch(word: Word, index: nat, usedRects: seq<Rect>, cos: real -> real, sin: real -> real)
    returns (positioned: bool, px: real, py: real)
    ensures var out := FirstFit(word, index, usedRects, cos, sin, 0);
      positioned == out.Spiral? && (positioned ==> px == out.x && py == out.y)
  {
    var fontSize := GetFontSize(word.weight);
    var textWidth := TextWidth(word);
    var textHeight := fontSize;

    positioned, px, py := false, 0.0, 0.0;
    var attempts: nat := 0;
    var radius: real := if index == 0 then 0.0 else 30.0;
    var angle: real := 0.0;
    ghost var goal := FirstFit(word, index, usedRects, cos, sin, 0);

    while !positioned && attempts < MaxAttempts
      invariant attempts <= MaxAttempts
      invariant angle == SpiralAngle(attempts)
      invariant index != 0 ==> radius == SpiralRadius(attempts)
      invariant !positioned ==> goal == FirstFit(word, index, usedRects, cos, sin, attempts)
      invariant positioned ==> goal.Spiral? && px == goal.x && py == goal.y
      decreases MaxAttempts - attempts, if positioned then 0 else 1
    {
      var x: real, y: real;
      if index == 0 {
        x, y := CenterX, CenterY;
      } else {
        x := CenterX + Offset(radius, cos(angle));
        y := CenterY + Offset(radius, sin(angle));
      }
      assert x == CandidateX(index, attempts, cos) && y == CandidateY(index, attempts, sin);

      var accepted := TryCandidate(word, x, y, textWidth, textHeight, usedRects);
      FirstFitStep(word, index, usedRects, cos, sin, attempts);

      if accepted {
        positioned, px, py := true, x, y;
      }

      angle, radius := AdvanceSpiral(angle, radius, attempts);
      attempts := attempts + 1;
    }
  }

  /**
   * Places one label: the spiral position with a random rotation (one draw), or the
   * random fallback position (three draws); only a spiral position is added to usedRects.
   */
  method PlaceWord(word: Word, index: nat, positions: seq<Placed>, usedRects: seq<Rect>, draws: nat,
                   cos: real -> real, sin: real -> real, random: nat -> Unit)
    returns (positions': seq<Placed>, usedRects': seq<Rect>, draws': nat)
    ensures var out := FirstFit(word, index, usedRects, cos, sin, 0);
      && |positions'| == |positions| + 1 && positions'[..|positions|] == positions
      && PlacedAs(positions'[|positions|], word, out, random, draws)
      && usedRects' == usedRects + (if out.Spiral? then [RectAt(word, out.x, out.y)] else [])
      && draws' == draws + (if out.Spiral? then 1 else 3)
  {
    var fontSize := GetFontSize(word.weight);
    var positioned, x, y := SpiralSearch(word, index, usedRects, cos, sin);
    if positioned {
      var entry := Placed(word.text, word.weight, x, y, fontSize, random(draws) * 10.0 - 5.0);
      PlacedAsSpiral(entry, word, x, y, FirstFit(word, index, usedRects, cos, sin, 0).attempt, random, draws);
      positions' := positions + [entry];
      usedRects' := usedRects + [RectAt(word, x, y)];
      draws' := draws + 1;
    } else {
      var entry := Placed(word.text, word.weight,
                          CenterX + (random(draws) - 0.5) * 400.0,
                          CenterY + (random(draws + 1) - 0.5) * 300.0,
                          fontSize,
                          random(draws + 2) * 10.0 - 5.0);
      PlacedAsFallback(entry, word, random, draws);
      positions', usedRects', draws' := positions + [entry], usedRects, draws + 3;
    }
  }

  /** `positions` is what the engine emits for the sorted labels `ws`, label by label. */
  ghost predicate Emitted(ws: seq<Word>, positions: seq<Placed>, cos: real -> real, sin: real -> real, random: nat -> Unit) {
    var outs := Place(ws, cos, sin);
    && |positions| == |ws|
    && forall i :: 0 <= i < |ws| ==> PlacedAs(positions[i], ws[i], outs[i], random, Draws(outs[..i]))
  }

  /** Emitting label n after labels 0..n-1 extends the emitted prefix by one. */
  lemma EmittedSnoc(ws: seq<Word>, n: nat, positions: seq<Placed>, p: Placed,
                    cos: real -> real, sin: real -> real, random: nat -> Unit)
    requires n < |ws| && Emitted(ws[..n], positions, cos, sin, random)
    requires var prev := Place(ws[..n], cos, sin);
      PlacedAs(p, ws[n], FirstFit(ws[n], n, Used(ws[..n], prev), cos, sin, 0), random, Draws(prev))
    ensures Emitted(ws[..n + 1], positions + [p], cos, sin, random)
  {
    var prev := Place(ws[..n], cos, sin);
    var out := FirstFit(ws[n], n, Used(ws[..n], prev), cos, sin, 0);
    PlaceSnoc(ws, n, cos, sin);
    var outs := Place(ws[..n + 1], cos, sin);
    assert outs == prev + [out];
    var ps := positions + [p];
    forall i | 0 <= i < n + 1
      ensures PlacedAs(ps[i], ws[..n + 1][i], outs[i], random, Draws(outs[..i]))
    {
      if i < n {
        assert outs[..i] == prev[..i];
        assert ps[i] == positions[i] && ws[..n + 1][i] == ws[..n][i] && outs[i] == prev[i];
      } else {
        assert outs[..i] == prev;
      }
    }
  }

  /** The loop state of generateWordCloudPositions after placing the first n sorted labels. */
  ghost predicate Progress(ws: seq<Word>, n: nat, positions: seq<Placed>, usedRects: seq<Rect>, draws: nat,
                           cos: real -> real, sin: real -> real, random: nat -> Unit)
    requires n <= |ws|
  {
    && Emitted(ws[..n], positions, cos, sin, random)
    && usedRects == Used(ws[..n], Place(ws[..n], cos, sin))
    && draws == Draws(Place(ws[..n], cos, sin))
  }

  /** Placing label n with PlaceWord's effect advances the loop state from n to n + 1. */
  lemma ProgressStep(ws: seq<Word>, n: nat, positions: seq<Placed>, usedRects: seq<Rect>, draws: nat,
                     positions': seq<Placed>, usedRects': seq<Rect>, draws': nat,
                     cos: real -> real, sin: real -> real, random: nat -> Unit)
    requires n < |ws| && Progress(ws, n, positions, usedRects, draws, cos, sin, random)
    requires var out := FirstFit(ws[n], n, usedRects, cos, sin, 0);
      && |positions'| == |positions| + 1 && positions'[..|positions|] == positions
      && PlacedAs(positions'[|positions|], ws[n], out, random, draws)
      && usedRects' == usedRects + (if out.Spiral? then [RectAt(ws[n], out.x, out.y)] else [])
      && draws' == draws + (if out.Spiral? then 1 else 3)
    ensures Progress(ws, n + 1, positions', usedRects', draws', cos, sin, random)
  {
    StepEmitted(ws, n, positions, positions', usedRects, draws, cos, sin, random);
    StepUsedDraws(ws, n, usedRects, usedRects', draws, draws', cos, sin);
  }

  lemma StepEmitted(ws: seq<Word>, n: nat, positions: seq<Placed>, positions': seq<Placed>, usedRects: seq<Rect>, draws: nat,
                    cos: real -> real, sin: real -> real, random: nat -> Unit)
    requires n < |ws| && Emitted(ws[..n], positions, cos, sin, random)
    requires usedRects == Used(ws[..n], Place(ws[..n], cos, sin)) && draws == Draws(Place(ws[..n], cos, sin))
    requires |positions'| == |positions| + 1 && positions'[..|positions|] == positions
    requires PlacedAs(positions'[|positions|], ws[n], FirstFit(ws[n], n, usedRects, cos, sin, 0), random, draws)
    ensures Emitted(ws[..n + 1], positions', cos, sin, random)
  {
    SnocOf(positions, positions');
    EmittedSnoc(ws, n, positions, positions'[|positions|], cos, sin, random);
  }

  lemma StepUsedDraws(ws: seq<Word>, n: nat, usedRects: seq<Rect>, usedRects': seq<Rect>, draws: nat, draws': nat,
                      cos: real -> real, sin: real -> real)
    requires n < |ws|
    requires usedRects == Used(ws[..n], Place(ws[..n], cos, sin)) && draws == Draws(Place(ws[..n], cos, sin))
    requires var out := FirstFit(ws[n], n, usedRects, cos, sin, 0);
      && usedRects' == usedRects + (if out.Spiral? then [RectAt(ws[n], out.x, out.y)] else [])
      && draws' == draws + (if out.Spiral? then 1 else 3)
    ensures usedRects' == Used(ws[..n + 1], Place(ws[..n + 1], cos, sin))
    ensures draws' == Draws(Place(ws[..n + 1], cos, sin))
  {
    PlaceSnoc(ws, n, cos, sin);
    DrawsSnoc(Place(ws[..n], cos, sin), FirstFit(ws[n], n, usedRects, cos, sin, 0));
  }

  /** A sequence one longer than its prefix `a` is `a` with its last element appended. */
  lemma SnocOf<T>(a: seq<T>, b: seq<T>)
    requires |b| == |a| + 1 && b[..|a|] == a
    ensures b == a + [b[|a|]]
  {
    assert b == b[..|a|] + [b[|a|]];
  }

  /** What every emitted entry satisfies: its label, font size, rotation range and position. */
  lemma EmittedFacts(ws: seq<Word>, positions: seq<Placed>, cos: real -> real, sin: real -> real, random: nat -> Unit)
    requires Emitted(ws, positions, cos, sin, random)
    ensures Labels(positions) == ws
    ensures var outs := Place(ws, cos, sin);
      forall i :: 0 <= i < |positions| ==>
        && positions[i].fontSize == GetFontSize(positions[i].weight)
        && -5.0 <= positions[i].rotation < 5.0
        && (outs[i].Spiral? ==> positions[i].x == outs[i].x && positions[i].y == outs[i].y)
        && (outs[i].Fallback? ==> 200.0 <= positions[i].x < 600.0 && 75.0 <= positions[i].y < 375.0)
  {
    var outs := Place(ws, cos, sin);
    forall i | 0 <= i < |positions|
      ensures -5.0 <= positions[i].rotation < 5.0
      ensures outs[i].Fallback? ==> 200.0 <= positions[i].x < 600.0 && 75.0 <= positions[i].y < 375.0
    {
      PlacedAsRanges(positions[i], ws[i], outs[i], random, Draws(outs[..i]));
    }
  }

  /**
   * `generateWordCloudPositions`: one entry per word in stable weight-descending order,
   * each placed where the spiral search of Place puts it, or at a random fallback spot.
   */
  method GenerateWordCloudPositions(words: seq<Word>, cos: real -> real, sin: real -> real, random: nat -> Unit)
    returns (positions: seq<Placed>)
    ensures |positions| == |words|
    ensures Emitted(SortByWeight(words), positions, cos, sin, random)
    ensures Labels(positions) == SortByWeight(words)
    ensures var outs := Place(SortByWeight(words), cos, sin);
      forall i :: 0 <= i < |positions| ==>
        && positions[i].fontSize == GetFontSize(positions[i].weight)
        && -5.0 <= positions[i].rotation < 5.0
        && (outs[i].Spiral? ==> positions[i].x == outs[i].x && positions[i].y == outs[i].y)
        && (outs[i].Fallback? ==> 200.0 <= positions[i].x < 600.0 && 75.0 <= positions[i].y < 375.0)
  {
    var sortedWords := Sorting.SortDesc(words, Weight);
    SortByWeightFacts(words);
    positions := [];
    var usedRects: seq<Rect> := [];
    var draws: nat := 0;
    var index := 0;
    while index < |sortedWords|
      invariant 0 <= index <= |sortedWords|
      invariant Progress(sortedWords, index, positions, usedRects, draws, cos, sin, random)
    {
      var positions', usedRects', draws' := PlaceWord(sortedWords[index], index, positions, usedRects, draws, cos, sin, random);
      ProgressStep(sortedWords, index, positions, usedRects, draws, positions', usedRects', draws', cos, sin, random);
      positions, usedRects, draws := positions', usedRects', draws';
      index := index + 1;
    }
    assert sortedWords[..index] == sortedWords;
    EmittedFacts(sortedWords, positions, cos, sin, random);
  }

  // Properties of the layout

  /** The padded test is symmetric, so it does not matter which label is tested against which. */
  lemma CollidesSymmetric(r: Rect, u: Rect)
    ensures Collides(r, u) == Collides(u, r)
  {
  }

  /** Two rectangles pass the padded test iff they are at least Padding apart on the x axis or the y axis. */
  lemma NotCollidesSeparated(r: Rect, u: Rect)
    ensures !Collides(r, u) <==>
      || r.x + r.width + Padding <= u.x || u.x + u.width + Padding <= r.x
      || r.y + r.height + Padding <= u.y || u.y + u.height + Padding <= r.y
  {
  }

  /** The outcomes of a prefix of the labels are the prefix of the outcomes. */
  lemma {:induction false} PlacePrefix(ws: seq<Word>, n: nat, cos: real -> real, sin: real -> real)
    requires n <= |ws|
    ensures Place(ws[..n], cos, sin) == Place(ws, cos, sin)[..n]
    decreases |ws|
  {
    if n < |ws| {
      var m := |ws| - 1;
      PlacePrefix(ws[..m], n, cos, sin);
      assert ws[..m][..n] == ws[..n];
      assert Place(ws, cos, sin)[..m] == Place(ws[..m], cos, sin);
    } else {
      assert ws[..n] == ws;
    }
  }

  /** Label i is searched against the rectangles Place accepted for labels 0..i-1. */
  lemma PlaceAt(ws: seq<Word>, i: nat, cos: real -> real, sin: real -> real)
    requires i < |ws|
    ensures Place(ws, cos, sin)[i] == FirstFit(ws[i], i, Used(ws[..i], Place(ws[..i], cos, sin)), cos, sin, 0)
  {
    PlacePrefix(ws, i + 1, cos, sin);
    PlaceSnoc(ws, i, cos, sin);
  }

  /** Every spiral-placed label contributes its rectangle to the used set; fallback labels contribute nothing. */
  lemma {:induction false} UsedContains(ws: seq<Word>, outs: seq<Outcome>, i: nat)
    requires |ws| == |outs| && i < |ws|
    ensures outs[i].Spiral? ==> RectAt(ws[i], outs[i].x, outs[i].y) in Used(ws, outs)
    decreases |ws|
  {
    var n := |ws| - 1;
    if i < n {
      UsedContains(ws[..n], outs[..n], i);
    }
  }

  /** Every rectangle in the used set belongs to a spiral-placed label. */
  lemma {:induction false} UsedOnlySpiral(ws: seq<Word>, outs: seq<Outcome>, r: Rect)
    requires |ws| == |outs| && r in Used(ws, outs)
    ensures exists i :: 0 <= i < |ws| && outs[i].Spiral? && r == RectAt(ws[i], outs[i].x, outs[i].y)
    decreases |ws|
  {
    var n := |ws| - 1;
    var prev := Used(ws[..n], outs[..n]);
    if r in prev {
      UsedOnlySpiral(ws[..n], outs[..n], r);
      var i :| 0 <= i < n && outs[..n][i].Spiral? && r == RectAt(ws[..n][i], outs[..n][i].x, outs[..n][i].y);
      assert outs[i] == outs[..n][i] && ws[i] == ws[..n][i];
    } else {
      assert outs[n].Spiral? && r == RectAt(ws[n], outs[n].x, outs[n].y);
    }
  }

  /**
   * A spiral-placed label was found on attempt k < 100 of the schedule, at the candidate point of
   * that attempt, strictly inside the canvas, and every earlier attempt was rejected.
   */
  lemma PlaceSpiralFacts(ws: seq<Word>, i: nat, cos: real -> real, sin: real -> real)
    requires i < |ws| && Place(ws, cos, sin)[i].Spiral?
    ensures var o := Place(ws, cos, sin)[i];
      && o.attempt < MaxAttempts
      && o.x == CandidateX(i, o.attempt, cos) && o.y == CandidateY(i, o.attempt, sin)
      && InBounds(ws[i], o.x, o.y)
      && forall j :: 0 <= j < o.attempt ==> !FitsAt(ws[i], i, j, Used(ws[..i], Place(ws[..i], cos, sin)), cos, sin)
  {
    PlaceAt(ws, i, cos, sin);
    FirstFitSpec(ws[i], i, Used(ws[..i], Place(ws[..i], cos, sin)), cos, sin, 0);
  }

  /** Any two spiral-placed labels are at least Padding apart on the x axis or the y axis. */
  lemma PlaceSeparated(ws: seq<Word>, i: nat, j: nat, cos: real -> real, sin: real -> real)
    requires i < j < |ws|
    requires Place(ws, cos, sin)[i].Spiral? && Place(ws, cos, sin)[j].Spiral?
    ensures var outs := Place(ws, cos, sin);
      && !Collides(RectAt(ws[i], outs[i].x, outs[i].y), RectAt(ws[j], outs[j].x, outs[j].y))
      && !Collides(RectAt(ws[j], outs[j].x, outs[j].y), RectAt(ws[i], outs[i].x, outs[i].y))
  {
    var outs := Place(ws, cos, sin);
    var prev := Place(ws[..j], cos, sin);
    var used := Used(ws[..j], prev);
    PlaceAt(ws, j, cos, sin);
    FirstFitSpec(ws[j], j, used, cos, sin, 0);
    PlacePrefix(ws, j, cos, sin);
    assert prev[i] == outs[i] && ws[..j][i] == ws[i];
    UsedContains(ws[..j], prev, i);
    var ri, rj := RectAt(ws[i], outs[i].x, outs[i].y), RectAt(ws[j], outs[j].x, outs[j].y);
    var m :| 0 <= m < |used| && used[m] == ri;
    assert !HasCollision(rj, used);
    CollidesSymmetric(ri, rj);
  }

  /**
   * The first label only tries the centre: it is placed at (400, 225) on attempt 0 exactly
   * when it is narrower than the canvas and lower than it, and falls back otherwise.
   */
  lemma PlaceFirstLabel(ws: seq<Word>, cos: real -> real, sin: real -> real)
    requires ws != []
    ensures Place(ws, cos, sin)[0].Spiral? <==> TextWidth(ws[0]) < CanvasWidth && TextHeight(ws[0]) < CanvasHeight
    ensures Place(ws, cos, sin)[0].Spiral? ==> Place(ws, cos, sin)[0] == Spiral(CenterX, CenterY, 0)
  {
    PlaceAt(ws, 0, cos, sin);
    assert Place(ws[..0], cos, sin) == [];
    assert Used(ws[..0], []) == [];
    FirstFitSpec(ws[0], 0, [], cos, sin, 0);
    assert FitsAt(ws[0], 0, 0, [], cos, sin) <==> TextWidth(ws[0]) < CanvasWidth && TextHeight(ws[0]) < CanvasHeight;
  }
}
