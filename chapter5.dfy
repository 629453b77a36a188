/**
 * Chapter 5, "the constellation": eight memory stars; touching one lights
 * it and shows its memory, and lines are drawn between lit stars that the
 * table connects.
 */
module Chapter5 {
  import opened Reveal

  datatype Star = Star(id: int, x: int, y: int, size: int, text: string, connectsTo: seq<int>)

  /** The table `STARS`; positions are percentages of the sky. */
  const STARS: seq<Star> := [
    Star(1, 25, 20, 6, "Le premier regard. Celui qui a tout déclenché.", [2]),
    Star(2, 40, 15, 5, "Ces rires qu'on ne peut pas inventer. Purs. Absolus.", [3]),
    Star(3, 55, 25, 7, "Le jour où j'ai su que mon cœur ne m'appartenait plus.", [4]),
    Star(4, 70, 18, 5, "Les silences partagés, plus éloquents que mille discours.", [5]),
    Star(5, 80, 35, 6, "Cette promesse muette : \"Je serai là. Toujours.\"", [6]),
    Star(6, 65, 45, 8, "Ton âme. Cette lumière rare que le monde essaie d'apprivoiser.", [7]),
    Star(7, 45, 42, 5, "Les rêves qu'on a tissés ensemble, fil à fil, étoile à étoile.", [8]),
    Star(8, 30, 48, 7, "Et cette dernière nuit. Celle où tout a basculé dans le silence.", [1])
  ]

  /** `stars.find(s => s.id === id)`: the first star with this id, if any. */
  function FindStar(stars: seq<Star>, id: int): (r: Option<Star>)
    ensures r.None? <==> forall i :: 0 <= i < |stars| ==> stars[i].id != id
    ensures r.Some? ==> r.value in stars && r.value.id == id
  {
    if stars == [] then None
    else if stars[0].id == id then Some(stars[0])
    else
      var r := FindStar(stars[1..], id);
      assert r.None? ==> forall i :: 0 <= i < |stars| ==> stars[i].id != id by {
        if r.None? {
          forall i | 0 <= i < |stars| ensures stars[i].id != id {
            if i > 0 { assert stars[i] == stars[1..][i - 1]; }
          }
        }
      }
      r
  }

  /** The star found is the first one carrying the id: no earlier star has it. */
  lemma {:induction false} FindStarFirst(stars: seq<Star>, id: int)
    ensures FindStar(stars, id).Some? ==>
      exists i :: 0 <= i < |stars| && stars[i] == FindStar(stars, id).value &&
        forall j :: 0 <= j < i ==> stars[j].id != id
  {
    if stars != [] && stars[0].id != id {
      var rest := stars[1..];
      FindStarFirst(rest, id);
      var r := FindStar(stars, id);
      if r.Some? {
        var i :| 0 <= i < |rest| && rest[i] == r.value && forall j :: 0 <= j < i ==> rest[j].id != id;
        assert stars[i + 1] == r.value;
        forall j | 0 <= j < i + 1 ensures stars[j].id != id {
          if j > 0 { assert stars[j] == rest[j - 1]; }
        }
      }
    }
  }

  /** Star `i` has id i+1 and connects to the next id only, 8 wrapping round to 1. */
  ghost predicate CycleShaped(stars: seq<Star>)
  {
    |stars| == 8 &&
    forall i :: 0 <= i < |stars| ==>
      stars[i].id == i + 1 && |stars[i].connectsTo| == 1 && stars[i].connectsTo[0] == (i + 1) % 8 + 1
  }

  /** The table `STARS` has that shape. */
  lemma StarTableShape()
    ensures CycleShaped(STARS)
  {
  }

  /** The ids of the table's stars: 1 to 8 (`StarIdsAreTableIds` ties them to `STARS`). */
  function StarIds(): (ids: set<int>)
    ensures forall x :: x in ids <==> 1 <= x <= 8
    ensures |ids| == 8
  {
    {1, 2, 3, 4, 5, 6, 7, 8}
  }

  /** The ids in `StarIds()` are exactly those the table's stars carry, one per star. */
  lemma StarIdsAreTableIds()
    ensures forall i :: 0 <= i < |STARS| ==> STARS[i].id in StarIds()
    ensures forall x :: x in StarIds() ==> 0 < x <= |STARS| && STARS[x - 1].id == x
    ensures |StarIds()| == |STARS|
  {
    StarTableShape();
    ShapedIds(STARS);
  }

  lemma ShapedIds(stars: seq<Star>)
    requires CycleShaped(stars)
    ensures forall i :: 0 <= i < |stars| ==> 1 <= stars[i].id <= 8
    ensures forall x :: x in StarIds() ==> 0 < x <= |stars| && stars[x - 1].id == x
  {
  }

  /** In a cycle-shaped table the search for `id` finds star id-1 exactly when 1 <= id <= 8. */
  lemma FindInShaped(stars: seq<Star>, id: int)
    requires CycleShaped(stars)
    ensures FindStar(stars, id).Some? <==> 1 <= id <= 8
    ensures FindStar(stars, id).Some? ==> FindStar(stars, id).value == stars[id - 1]
  {
    var r := FindStar(stars, id);
    if 1 <= id <= 8 {
      assert stars[id - 1].id == id;
    }
    if r.Some? {
      var i :| 0 <= i < |stars| && stars[i] == r.value;
      assert i == id - 1;
    }
  }

  /** Looking an id up in the table finds a star exactly for the ids 1..8, and it is star id-1. */
  lemma FindInTable(id: int)
    ensures FindStar(STARS, id).Some? <==> id in StarIds()
    ensures FindStar(STARS, id).Some? ==> FindStar(STARS, id).value == STARS[id - 1]
  {
    StarTableShape();
    FindInShaped(STARS, id);
  }

  /**
   * `STARS.find(s => s.id === id)` as `activateStar` uses it, read off the
   * table's shape; `LookupIsFind` shows it agrees with the linear search.
   */
  function LookupStar(id: int): (r: Option<Star>)
    ensures r.Some? <==> id in StarIds()
    ensures r.Some? ==> r.value == STARS[id - 1]
  {
    if 1 <= id <= |STARS| then Some(STARS[id - 1]) else None
  }

  lemma LookupIsFind(id: int)
    ensures LookupStar(id) == FindStar(STARS, id)
    ensures LookupStar(id).Some? ==> LookupStar(id).value.id == id
  {
    FindInTable(id);
    StarTableShape();
  }

  /**
   * The key of a line, `[a, b].sort().join("-")`, kept as the ordered pair
   * it spells: for the one-digit ids of the table the string sort agrees
   * with the numeric order.
   */
  datatype LineKey = LineKey(lo: int, hi: int)

  function Key(a: int, b: int): (k: LineKey)
    ensures k.lo <= k.hi
    ensures {k.lo, k.hi} == {a, b}
  {
    if a <= b then LineKey(a, b) else LineKey(b, a)
  }

  /** A line A→B and a line B→A carry the same key. */
  lemma KeyUnordered(a: int, b: int, c: int, d: int)
    ensures Key(a, b) == Key(c, d) <==> (a == c && b == d) || (a == d && b == c)
  {
  }

  datatype Line = Line(key: LineKey, x1: int, y1: int, x2: int, y2: int)

  /** Connection `c` of star `i` joins two lit stars, and its target exists in the table. */
  ghost predicate Edge(stars: seq<Star>, activeIds: set<int>, i: int, c: int)
  {
    0 <= i < |stars| && 0 <= c < |stars[i].connectsTo| &&
    stars[i].id in activeIds && stars[i].connectsTo[c] in activeIds &&
    FindStar(stars, stars[i].connectsTo[c]).Some?
  }

  /** The line drawn for connection `c` of star `i`: from the star to its target. */
  ghost function EdgeLine(stars: seq<Star>, activeIds: set<int>, i: int, c: int): Line
    requires Edge(stars, activeIds, i, c)
  {
    var target := FindStar(stars, stars[i].connectsTo[c]).value;
    Line(Key(stars[i].id, target.id), stars[i].x, stars[i].y, target.x, target.y)
  }

  function KeysOf(lines: seq<Line>): set<LineKey>
  {
    set l | l in lines :: l.key
  }

  /** `lines.find(l => l.key === key)` found something. */
  predicate HasKey(lines: seq<Line>, key: LineKey)
  {
    exists j :: 0 <= j < |lines| && lines[j].key == key
  }

  /** Every line drawn is the line of some connection between two lit stars. */
  ghost predicate LinesSound(stars: seq<Star>, activeIds: set<int>, lines: seq<Line>)
  {
    forall l :: l in lines ==> exists i, c :: Edge(stars, activeIds, i, c) && l == EdgeLine(stars, activeIds, i, c)
  }

  /** Every connection between two lit stars has a line with its key. */
  ghost predicate LinesComplete(stars: seq<Star>, activeIds: set<int>, lines: seq<Line>)
  {
    forall i, c :: Edge(stars, activeIds, i, c) ==> Key(stars[i].id, stars[i].connectsTo[c]) in KeysOf(lines)
  }

  /** No two lines share a key. */
  predicate KeysDistinct(lines: seq<Line>)
  {
    forall j, k :: 0 <= j < k < |lines| ==> lines[j].key != lines[k].key
  }

  /**
   * `ConstellationLines`: walk the stars in order and, for each lit star,
   * its connections in order; a connection to a lit star that exists gets a
   * line unless one with the same unordered key is already drawn.
   */
  method ConstellationLines(stars: seq<Star>, activeIds: set<int>) returns (lines: seq<Line>)
    ensures LinesSound(stars, activeIds, lines)
    ensures LinesComplete(stars, activeIds, lines)
    ensures KeysDistinct(lines)
    ensures |lines| == |KeysOf(lines)|
  {
    lines := [];
    var i := 0;
    while i < |stars|
      invariant 0 <= i <= |stars|
      invariant LinesSound(stars, activeIds, lines)
      invariant KeysDistinct(lines)
      invariant |lines| == |KeysOf(lines)|
      invariant forall i', c :: 0 <= i' < i && Edge(stars, activeIds, i', c) ==>
                  Key(stars[i'].id, stars[i'].connectsTo[c]) in KeysOf(lines)
    {
      if stars[i].id in activeIds {
        lines := DrawStar(stars, activeIds, i, lines);
      }
      i := i + 1;
    }
  }

  /** The inner walk over the connections of the lit star `i`, in order. */
  method DrawStar(stars: seq<Star>, activeIds: set<int>, i: int, lines0: seq<Line>) returns (lines: seq<Line>)
    requires 0 <= i < |stars| && stars[i].id in activeIds
    requires LinesSound(stars, activeIds, lines0)
    requires KeysDistinct(lines0) && |lines0| == |KeysOf(lines0)|
    ensures LinesSound(stars, activeIds, lines)
    ensures KeysDistinct(lines) && |lines| == |KeysOf(lines)|
    ensures KeysOf(lines0) <= KeysOf(lines)
    ensures forall c :: Edge(stars, activeIds, i, c) ==> Key(stars[i].id, stars[i].connectsTo[c]) in KeysOf(lines)
  {
    lines := lines0;
    var c := 0;
    while c < |stars[i].connectsTo|
      invariant 0 <= c <= |stars[i].connectsTo|
      invariant LinesSound(stars, activeIds, lines)
      invariant KeysDistinct(lines) && |lines| == |KeysOf(lines)|
      invariant KeysOf(lines0) <= KeysOf(lines)
      invariant forall c' :: 0 <= c' < c && Edge(stars, activeIds, i, c') ==>
                  Key(stars[i].id, stars[i].connectsTo[c']) in KeysOf(lines)
    {
      lines := DrawConnection(stars, activeIds, i, c, lines);
      c := c + 1;
    }
  }

  /**
   * One step of the inner walk: connection `c` of the lit star `i` gets a
   * line when its target is lit, exists, and no line with the same key is
   * drawn yet; otherwise nothing changes.
   */
  method DrawConnection(stars: seq<Star>, activeIds: set<int>, i: int, c: int, lines0: seq<Line>)
    returns (lines: seq<Line>)
    requires 0 <= i < |stars| && stars[i].id in activeIds && 0 <= c < |stars[i].connectsTo|
    requires LinesSound(stars, activeIds, lines0)
    requires KeysDistinct(lines0) && |lines0| == |KeysOf(lines0)|
    ensures LinesSound(stars, activeIds, lines)
    ensures KeysDistinct(lines) && |lines| == |KeysOf(lines)|
    ensures KeysOf(lines0) <= KeysOf(lines)
    ensures Edge(stars, activeIds, i, c) ==> Key(stars[i].id, stars[i].connectsTo[c]) in KeysOf(lines)
    ensures !Edge(stars, activeIds, i, c) ==> lines == lines0
    ensures Edge(stars, activeIds, i, c) && Key(stars[i].id, stars[i].connectsTo[c]) in KeysOf(lines0) ==>
      lines == lines0
    ensures Edge(stars, activeIds, i, c) && Key(stars[i].id, stars[i].connectsTo[c]) !in KeysOf(lines0) ==>
      lines == lines0 + [EdgeLine(stars, activeIds, i, c)]
  {
    lines := lines0;
    var star := stars[i];
    var targetId := star.connectsTo[c];
    if targetId in activeIds {
      var target := FindStar(stars, targetId);
      if target.Some? {
        var lineKey := Key(star.id, targetId);
        if !HasKey(lines, lineKey) {
          var line := Line(lineKey, star.x, star.y, target.value.x, target.value.y);
          AppendNewKey(lines, line);
          assert Edge(stars, activeIds, i, c);
          AppendEdgeLine(stars, activeIds, lines, i, c);
          lines := lines + [line];
        } else {
          ghost var j :| 0 <= j < |lines| && lines[j].key == lineKey;
          assert lines[j] in lines;
        }
      }
    }
  }

  /** Appending the line of a connection keeps every line drawn the line of a connection. */
  lemma AppendEdgeLine(stars: seq<Star>, activeIds: set<int>, lines: seq<Line>, i: int, c: int)
    requires LinesSound(stars, activeIds, lines)
    requires Edge(stars, activeIds, i, c)
    ensures LinesSound(stars, activeIds, lines + [EdgeLine(stars, activeIds, i, c)])
  {
    var l := EdgeLine(stars, activeIds, i, c);
    forall x | x in lines + [l]
      ensures exists i', c' :: Edge(stars, activeIds, i', c') && x == EdgeLine(stars, activeIds, i', c')
    {
      if x == l {
        assert Edge(stars, activeIds, i, c) && x == EdgeLine(stars, activeIds, i, c);
      } else {
        assert x in lines;
      }
    }
  }

  /** Appending a line with a fresh key keeps keys distinct and adds exactly that key. */
  lemma AppendNewKey(lines: seq<Line>, l: Line)
    requires KeysDistinct(lines) && |lines| == |KeysOf(lines)|
    requires !HasKey(lines, l.key)
    ensures KeysOf(lines + [l]) == KeysOf(lines) + {l.key}
    ensures l.key !in KeysOf(lines)
    ensures KeysDistinct(lines + [l]) && |lines + [l]| == |KeysOf(lines + [l])|
  {
    assert forall x :: x in lines + [l] <==> x in lines || x == l;
  }

  /** The keys of the eight connections of the table: the cycle 1-2, 2-3, …, 7-8, 1-8. */
  const CycleKeys: set<LineKey> := {
    LineKey(1, 2), LineKey(2, 3), LineKey(3, 4), LineKey(4, 5),
    LineKey(5, 6), LineKey(6, 7), LineKey(7, 8), LineKey(1, 8)
  }

  /** The key of the one connection of star `i`: from id i+1 to the next id round the cycle. */
  function CycleKey(i: int): LineKey
  {
    Key(i + 1, (i + 1) % 8 + 1)
  }

  /** Each star's connection key is a cycle key. */
  lemma CycleKeyIn(i: int)
    requires 0 <= i < 8
    ensures CycleKey(i) in CycleKeys
  {
    if i == 7 {
      assert CycleKey(i) == LineKey(1, 8);
    } else {
      assert CycleKey(i) == LineKey(i + 1, i + 2);
    }
  }

  /** Each cycle key is the connection key of some star. */
  lemma CycleKeyOf(k: LineKey) returns (i: int)
    requires k in CycleKeys
    ensures 0 <= i < 8 && CycleKey(i) == k
  {
    if k == LineKey(1, 8) {
      i := 7;
    } else {
      i := k.lo - 1;
    }
  }

  lemma CycleKeysCount()
    ensures |CycleKeys| == 8
  {
  }

  /** In a cycle-shaped sky with every star lit, the connections are exactly one per star. */
  lemma EdgesOfFullSky(stars: seq<Star>, i: int, c: int)
    requires CycleShaped(stars)
    requires Edge(stars, StarIds(), i, c)
    ensures c == 0
    ensures Key(stars[i].id, stars[i].connectsTo[c]) == CycleKey(i)
    ensures EdgeLine(stars, StarIds(), i, c).key == CycleKey(i)
  {
    FindInShaped(stars, stars[i].connectsTo[c]);
  }

  lemma FullSkyHasEdges(stars: seq<Star>, i: int)
    requires CycleShaped(stars)
    requires 0 <= i < 8
    ensures Edge(stars, StarIds(), i, 0)
    ensures Key(stars[i].id, stars[i].connectsTo[0]) == CycleKey(i)
  {
    FindInShaped(stars, stars[i].connectsTo[0]);
  }

  lemma KeysWithinCycle(stars: seq<Star>, lines: seq<Line>)
    requires CycleShaped(stars)
    requires LinesSound(stars, StarIds(), lines)
    ensures KeysOf(lines) <= CycleKeys
  {
    var all := StarIds();
    forall k | k in KeysOf(lines) ensures k in CycleKeys {
      var l :| l in lines && l.key == k;
      var i, c :| Edge(stars, all, i, c) && l == EdgeLine(stars, all, i, c);
      EdgesOfFullSky(stars, i, c);
      CycleKeyIn(i);
    }
  }

  lemma CycleWithinKeys(stars: seq<Star>, lines: seq<Line>)
    requires CycleShaped(stars)
    requires LinesComplete(stars, StarIds(), lines)
    ensures CycleKeys <= KeysOf(lines)
  {
    forall k | k in CycleKeys ensures k in KeysOf(lines) {
      var i := CycleKeyOf(k);
      FullSkyHasEdges(stars, i);
    }
  }

  /**
   * With all eight stars of a cycle-shaped table lit, whatever lines
   * `ConstellationLines` returns close the cycle 1→2→…→8→1: their keys are
   * the eight cycle keys and there are exactly eight of them.
   */
  lemma ShapedSkyDrawsCycle(stars: seq<Star>, lines: seq<Line>)
    requires CycleShaped(stars)
    requires LinesSound(stars, StarIds(), lines)
    requires LinesComplete(stars, StarIds(), lines)
    ensures KeysOf(lines) == CycleKeys
  {
    KeysWithinCycle(stars, lines);
    CycleWithinKeys(stars, lines);
  }

  /** Lines with distinct keys that are the cycle keys are eight lines. */
  lemma CycleLineCount(lines: seq<Line>)
    requires KeysOf(lines) == CycleKeys
    requires |lines| == |KeysOf(lines)|
    ensures |lines| == 8
  {
    CycleKeysCount();
  }

  /** With every star of the table lit, the sky draws the eight lines of the cycle. */
  method FullSkyLines() returns (lines: seq<Line>)
    ensures KeysOf(lines) == CycleKeys
    ensures |lines| == 8
  {
    lines := ConstellationLines(STARS, StarIds());
    StarTableShape();
    ShapedSkyDrawsCycle(STARS, lines);
    CycleLineCount(lines);
  }

  /** The useEffect on `activeStars.size`: the final message is scheduled iff every star is lit. */
  predicate FinalScheduled(activeStars: set<int>)
  {
    |activeStars| == |STARS|
  }

  /** The "touche les étoiles" hint shows only before the first star is lit. */
  predicate HintVisible(showHint: bool, activeStars: set<int>)
  {
    showHint && |activeStars| == 0
  }

  /** The component state of chapter 5. */
  class Chapter {
    var activeStars: set<int>
    var currentText: string
    var showFinalMessage: bool
    var showHint: bool

    ghost predicate Valid()
      reads this
    {
      activeStars <= StarIds() &&
      (showFinalMessage ==> FinalScheduled(activeStars))
    }

    constructor ()
      ensures Valid()
      ensures activeStars == {} && currentText == "" && !showFinalMessage && !showHint
    {
      activeStars := {};
      currentText := "";
      showFinalMessage := false;
      showHint := false;
    }

    /** The 3-second hint timer fires. */
    method HintTimerFires()
      modifies this
      ensures showHint
      ensures activeStars == old(activeStars) && currentText == old(currentText)
      ensures showFinalMessage == old(showFinalMessage)
    {
      showHint := true;
    }

    /**
     * `activateStar(id)`, on a click or a hover: an id that names no star
     * changes nothing; otherwise the star is lit (once) and its memory shown.
     */
    method ActivateStar(id: int)
      requires Valid()
      modifies this
      ensures Valid()
      ensures LookupStar(id).None? ==>
        activeStars == old(activeStars) && currentText == old(currentText) && showHint == old(showHint)
      ensures LookupStar(id).Some? ==>
        activeStars == AddId(old(activeStars), id) && currentText == LookupStar(id).value.text && !showHint
      ensures showFinalMessage == old(showFinalMessage)
    {
      var star := LookupStar(id);
      if star.None? {
        return;
      }
      FullIffSize(activeStars, StarIds());
      if FinalScheduled(activeStars) {
        assert activeStars + {id} == activeStars;
      }
      activeStars := activeStars + {id};
      currentText := star.value.text;
      showHint := false;
    }

    /** The 2-second final-message timer fires; it only exists once every star is lit. */
    method FinalTimerFires()
      requires Valid()
      requires FinalScheduled(activeStars)
      modifies this
      ensures Valid()
      ensures showFinalMessage && activeStars == old(activeStars) && currentText == old(currentText)
      ensures showHint == old(showHint)
    {
      showFinalMessage := true;
    }

    /** The lit set never outgrows the table, and it is complete iff every star is lit. */
    lemma Bounded()
      requires Valid()
      ensures |activeStars| <= |STARS|
      ensures FinalScheduled(activeStars) <==> activeStars == StarIds()
    {
      FullIffSize(activeStars, StarIds());
    }
  }
}
