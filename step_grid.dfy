/** The step grid as values: what each node of the drum machine holds, which
    node a touch toggles, what a frame draws and which drums it plays. The
    classes in module Sequencer are proved against these definitions.

    Orientation follows the program: the grid is a sequence of LINES (one
    per time step), and a line is a sequence of cells, one per voice; the
    index of a cell within its line is its POSITION. */
module StepGrid {
  import opened Geometry

  datatype Option<T> = None | Some(value: T)

  /** The content of one node: its rectangle, its background colour, its
      colour when selected, the name of its drum sample, and its state
      (0 off, 1 on). */
  datatype Cell = Cell(bounds: Rect, bg: Colour, sl: Colour, drum: string, state: int)

  /** A (line, position) index into the grid; the position is the voice. */
  datatype Pos = Pos(line: int, voice: int)

  /** What drawing a node produces: its rectangle, the colour it is filled
      with, and whether it is drawn bright (full colour) or dimmed. */
  datatype Paint = Paint(bounds: Rect, colour: Colour, bright: bool)

  predicate IsBit(s: int)
  {
    s == 0 || s == 1
  }

  /** The state table `{0: 1, 1: 0}` that toggling looks the state up in. */
  function Flip(s: int): (r: int)
    requires IsBit(s)
    ensures IsBit(r) && r != s
  {
    if s == 0 then 1 else 0
  }

  /** Toggling twice restores the state. */
  lemma FlipInvolutive(s: int)
    requires IsBit(s)
    ensures Flip(Flip(s)) == s
  {
  }

  predicate InGrid(g: seq<seq<Cell>>, y: int, x: int)
  {
    0 <= y < |g| && 0 <= x < |g[y]|
  }

  /** Every cell of the grid is off or on. */
  ghost predicate WellFormed(g: seq<seq<Cell>>)
  {
    forall y, x :: InGrid(g, y, x) ==> IsBit(g[y][x].state)
  }

  /** (y1, x1) comes before (y2, x2) in line-then-position order. */
  predicate Earlier(y1: int, x1: int, y2: int, x2: int)
  {
    y1 < y2 || (y1 == y2 && x1 < x2)
  }

  /** The node at (y, x) contains p and no node before it does. */
  ghost predicate IsFirstHit(g: seq<seq<Cell>>, p: Point, y: int, x: int)
  {
    && InGrid(g, y, x)
    && Contains(g[y][x].bounds, p)
    && forall j, i :: InGrid(g, j, i) && Earlier(j, i, y, x) ==> !Contains(g[j][i].bounds, p)
  }

  /** No node of the grid contains p. */
  ghost predicate Missed(g: seq<seq<Cell>>, p: Point)
  {
    forall j, i :: InGrid(g, j, i) ==> !Contains(g[j][i].bounds, p)
  }

  /** The first position at or after x in a line whose node contains p. */
  function FirstHitInLine(line: seq<Cell>, p: Point, x: nat): (r: Option<nat>)
    requires x <= |line|
    ensures r.Some? ==> x <= r.value < |line| && Contains(line[r.value].bounds, p)
    ensures r.Some? ==> forall i :: x <= i < r.value ==> !Contains(line[i].bounds, p)
    ensures r.None? ==> forall i :: x <= i < |line| ==> !Contains(line[i].bounds, p)
    decreases |line| - x
  {
    if x == |line| then None
    else if Contains(line[x].bounds, p) then Some(x)
    else FirstHitInLine(line, p, x + 1)
  }

  /** The first node, in line-then-position order among the lines from y
      on, whose rectangle contains p. */
  function FirstHitFrom(g: seq<seq<Cell>>, p: Point, y: nat): (r: Option<Pos>)
    requires y <= |g|
    ensures r.Some? ==> y <= r.value.line && InGrid(g, r.value.line, r.value.voice)
    ensures r.Some? ==> Contains(g[r.value.line][r.value.voice].bounds, p)
    ensures r.Some? ==> forall j, i ::
              y <= j && InGrid(g, j, i) && Earlier(j, i, r.value.line, r.value.voice) ==> !Contains(g[j][i].bounds, p)
    ensures r.None? ==> forall j, i :: y <= j && InGrid(g, j, i) ==> !Contains(g[j][i].bounds, p)
    decreases |g| - y
  {
    if y == |g| then None
    else match FirstHitInLine(g[y], p, 0)
      case Some(x) => Some(Pos(y, x))
      case None => FirstHitFrom(g, p, y + 1)
  }

  /** The node a touch at p toggles: the first, in line-then-position
      order, whose rectangle contains p; None when no node does. */
  function FirstHit(g: seq<seq<Cell>>, p: Point): (r: Option<Pos>)
    ensures r.Some? ==> IsFirstHit(g, p, r.value.line, r.value.voice)
    ensures r.None? ==> Missed(g, p)
  {
    FirstHitFrom(g, p, 0)
  }

  /** At most one node is the first hit. */
  lemma FirstHitUnique(g: seq<seq<Cell>>, p: Point, y1: int, x1: int, y2: int, x2: int)
    requires IsFirstHit(g, p, y1, x1) && IsFirstHit(g, p, y2, x2)
    ensures y1 == y2 && x1 == x2
  {
  }

  /** FirstHit finds (y, x) exactly when (y, x) is the first node that
      contains p. */
  lemma FirstHitExactly(g: seq<seq<Cell>>, p: Point, y: int, x: int)
    ensures FirstHit(g, p) == Some(Pos(y, x)) <==> IsFirstHit(g, p, y, x)
  {
    var r := FirstHit(g, p);
    if IsFirstHit(g, p, y, x) && r.Some? {
      FirstHitUnique(g, p, y, x, r.value.line, r.value.voice);
    }
  }

  /** The grid with the node at (y, x) toggled. */
  function Toggled(g: seq<seq<Cell>>, y: int, x: int): (r: seq<seq<Cell>>)
    requires InGrid(g, y, x) && IsBit(g[y][x].state)
    ensures |r| == |g| && forall j :: 0 <= j < |g| ==> |r[j]| == |g[j]|
    ensures IsBit(r[y][x].state) && r[y][x].state != g[y][x].state
    ensures r[y][x] == g[y][x].(state := r[y][x].state)
    ensures forall j, i :: InGrid(g, j, i) && (j != y || i != x) ==> r[j][i] == g[j][i]
  {
    g[y := g[y][x := g[y][x].(state := Flip(g[y][x].state))]]
  }

  /** The effect of a touch at p on the grid: the first node containing p
      is toggled; if none contains it the grid is left as it is. */
  function Touch(g: seq<seq<Cell>>, p: Point): (r: seq<seq<Cell>>)
    requires WellFormed(g)
    ensures |r| == |g| && forall y :: 0 <= y < |g| ==> |r[y]| == |g[y]|
    ensures Missed(g, p) ==> r == g
  {
    match FirstHit(g, p)
    case None => g
    case Some(q) => Toggled(g, q.line, q.voice)
  }

  /** A touch keeps the grid's shape and every cell's rectangle, colours and
      drum; it toggles the one node that is the first hit and leaves every
      other node as it was. */
  lemma TouchEffect(g: seq<seq<Cell>>, p: Point)
    requires WellFormed(g)
    ensures |Touch(g, p)| == |g|
    ensures forall y :: 0 <= y < |g| ==> |Touch(g, p)[y]| == |g[y]|
    ensures WellFormed(Touch(g, p))
    ensures forall y, x :: InGrid(g, y, x) ==>
              Touch(g, p)[y][x] == if IsFirstHit(g, p, y, x)
                                   then g[y][x].(state := Flip(g[y][x].state))
                                   else g[y][x]
  {
    match FirstHit(g, p)
    case None =>
    case Some(q) =>
      forall y, x | InGrid(g, y, x)
        ensures Touch(g, p)[y][x] == if IsFirstHit(g, p, y, x)
                                     then g[y][x].(state := Flip(g[y][x].state))
                                     else g[y][x]
      {
        FirstHitExactly(g, p, y, x);
      }
  }

  /** At most one node changes under a touch, and when no node contains the
      touch point nothing changes. */
  lemma TouchChangesAtMostOne(g: seq<seq<Cell>>, p: Point, y1: int, x1: int, y2: int, x2: int)
    requires WellFormed(g)
    requires InGrid(g, y1, x1) && Touch(g, p)[y1][x1] != g[y1][x1]
    requires InGrid(g, y2, x2) && Touch(g, p)[y2][x2] != g[y2][x2]
    ensures y1 == y2 && x1 == x2
    ensures !Missed(g, p)
  {
    TouchEffect(g, p);
    FirstHitUnique(g, p, y1, x1, y2, x2);
  }

  /** Two grids whose nodes have the same rectangles. */
  ghost predicate SameBounds(g1: seq<seq<Cell>>, g2: seq<seq<Cell>>)
  {
    && |g1| == |g2|
    && (forall y :: 0 <= y < |g1| ==> |g1[y]| == |g2[y]|)
    && (forall y, x :: InGrid(g1, y, x) ==> g1[y][x].bounds == g2[y][x].bounds)
  }

  /** Which node a touch hits depends only on the rectangles, not on the
      states. */
  lemma FirstHitOnlyReadsBounds(g1: seq<seq<Cell>>, g2: seq<seq<Cell>>, p: Point)
    requires SameBounds(g1, g2)
    ensures FirstHit(g1, p) == FirstHit(g2, p)
  {
    var r := FirstHit(g1, p);
    if r.Some? {
      FirstHitExactly(g2, p, r.value.line, r.value.voice);
    } else if FirstHit(g2, p).Some? {
      var q := FirstHit(g2, p).value;
      FirstHitExactly(g1, p, q.line, q.voice);
    }
  }

  /** Touching the same point twice restores the grid. */
  lemma TouchTwice(g: seq<seq<Cell>>, p: Point)
    requires WellFormed(g)
    ensures WellFormed(Touch(g, p))
    ensures Touch(Touch(g, p), p) == g
  {
    TouchEffect(g, p);
    var g1 := Touch(g, p);
    FirstHitOnlyReadsBounds(g, g1, p);
    match FirstHit(g, p)
    case None =>
    case Some(q) =>
      FlipInvolutive(g[q.line][q.voice].state);
      assert Touch(g1, p) == Toggled(g1, q.line, q.voice);
      assert Toggled(g1, q.line, q.voice)[q.line] == g[q.line];
  }

  /** The grid built at setup: `lines` lines of `rows` nodes each; the node
      at line y, position x covers (x*w, y*h, w, h), is off, and takes its
      selected colour and drum from the tables at index x. */
  function Layout(rows: nat, lines: nat, w: real, h: real, bg: Colour,
                  sl: map<int, Colour>, drums: map<int, string>): (g: seq<seq<Cell>>)
    requires forall x :: 0 <= x < rows ==> x in sl && x in drums
    ensures |g| == lines && forall y :: 0 <= y < lines ==> |g[y]| == rows
  {
    seq(lines, y => seq(rows, x requires 0 <= x < rows =>
      Cell(Rect(x as real * w, y as real * h, w, h), bg, sl[x], drums[x], 0)))
  }

  /** A freshly built grid has every node off. */
  lemma LayoutAllOff(rows: nat, lines: nat, w: real, h: real, bg: Colour,
                     sl: map<int, Colour>, drums: map<int, string>)
    requires forall x :: 0 <= x < rows ==> x in sl && x in drums
    ensures WellFormed(Layout(rows, lines, w, h, bg, sl, drums))
    ensures forall y, x :: InGrid(Layout(rows, lines, w, h, bg, sl, drums), y, x) ==>
              Layout(rows, lines, w, h, bg, sl, drums)[y][x].state == 0
  {
  }

  /** On a grid built by Layout with positive cell sizes, a touch hits the
      node under the point: with p inside [0, rows*w) x [0, lines*h) it is
      the node at line floor(p.y / h), position floor(p.x / w); outside
      that area no node is hit. */
  lemma LayoutHitIsCellUnderPoint(rows: nat, lines: nat, w: real, h: real, bg: Colour,
                                  sl: map<int, Colour>, drums: map<int, string>, p: Point)
    requires forall x :: 0 <= x < rows ==> x in sl && x in drums
    requires w > 0.0 && h > 0.0
    ensures FirstHit(Layout(rows, lines, w, h, bg, sl, drums), p) ==
            if 0.0 <= p.x < rows as real * w && 0.0 <= p.y < lines as real * h
            then Some(Pos((p.y / h).Floor, (p.x / w).Floor))
            else None
  {
    var g := Layout(rows, lines, w, h, bg, sl, drums);
    var inArea := 0.0 <= p.x < rows as real * w && 0.0 <= p.y < lines as real * h;
    var y, x := (p.y / h).Floor, (p.x / w).Floor;
    forall j, i | InGrid(g, j, i)
      ensures Contains(g[j][i].bounds, p) <==> inArea && j == y && i == x
    {
      LayoutCellContains(rows, lines, w, h, bg, sl, drums, p, j, i);
    }
    if inArea {
      SlotOf(p.x, w, rows);
      SlotOf(p.y, h, lines);
      assert IsFirstHit(g, p, y, x);
      FirstHitExactly(g, p, y, x);
    } else {
      assert Missed(g, p);
    }
  }

  /** The node at (j, i) of a grid built by Layout contains p exactly when
      p is inside the grid's area and (j, i) is (floor(p.y / h), floor(p.x / w)). */
  lemma LayoutCellContains(rows: nat, lines: nat, w: real, h: real, bg: Colour,
                           sl: map<int, Colour>, drums: map<int, string>, p: Point, j: int, i: int)
    requires forall x :: 0 <= x < rows ==> x in sl && x in drums
    requires w > 0.0 && h > 0.0
    requires 0 <= j < lines && 0 <= i < rows
    ensures Contains(Layout(rows, lines, w, h, bg, sl, drums)[j][i].bounds, p) <==>
            && 0.0 <= p.x < rows as real * w && 0.0 <= p.y < lines as real * h
            && j == (p.y / h).Floor && i == (p.x / w).Floor
  {
    assert Layout(rows, lines, w, h, bg, sl, drums)[j][i].bounds == Rect(i as real * w, j as real * h, w, h);
    SlotIff(i, rows, w, p.x);
    SlotIff(j, lines, h, p.y);
  }

  /** The colour a node is filled with: its selected colour when on, its
      background colour when off. */
  function CellPaint(c: Cell, bright: bool): (r: Paint)
    ensures r.bounds == c.bounds && r.bright == bright
    ensures r.colour == c.sl || r.colour == c.bg
  {
    Paint(c.bounds, if c.state != 0 then c.sl else c.bg, bright)
  }

  /** A node whose selected and background colours differ is painted
      differently after a toggle: the paint shows the state. */
  lemma ToggleRepaints(c: Cell, bright: bool)
    requires IsBit(c.state) && c.sl != c.bg
    ensures CellPaint(c.(state := Flip(c.state)), bright) != CellPaint(c, bright)
  {
  }

  /** The positions of a line whose node is on, in increasing order. */
  function OnPositions(line: seq<Cell>): (r: seq<nat>)
    ensures forall k :: 0 <= k < |r| ==> r[k] < |line| && line[r[k]].state != 0
    ensures forall k1, k2 :: 0 <= k1 < k2 < |r| ==> r[k1] < r[k2]
    ensures forall i :: 0 <= i < |line| && line[i].state != 0 ==> i in r
  {
    if line == [] then []
    else
      var n := |line| - 1;
      OnPositions(line[..n]) + if line[n].state != 0 then [n] else []
  }

  /** The drums a bright line plays: the drum of every node that is on, one
      after the other in position order. */
  function LinePlays(line: seq<Cell>): (r: seq<string>)
    ensures |r| <= |line|
  {
    if line == [] then []
    else
      var n := |line| - 1;
      LinePlays(line[..n]) + if line[n].state != 0 then [line[n].drum] else []
  }

  /** LinePlays plays exactly the drums of the nodes that are on, in
      position order: its k-th drum is that of the k-th position that is
      on. */
  lemma {:induction false} LinePlaysOnDrums(line: seq<Cell>)
    ensures |LinePlays(line)| == |OnPositions(line)|
    ensures forall k :: 0 <= k < |LinePlays(line)| ==>
              LinePlays(line)[k] == line[OnPositions(line)[k]].drum
  {
    if line != [] {
      var n := |line| - 1;
      LinePlaysOnDrums(line[..n]);
    }
  }

  /** Playing two pieces of a line one after the other plays the whole line. */
  lemma {:induction false} LinePlaysAppend(a: seq<Cell>, b: seq<Cell>)
    ensures LinePlays(a + b) == LinePlays(a) + LinePlays(b)
  {
    if b == [] {
      assert a + b == a;
    } else {
      var n := |b| - 1;
      assert (a + b)[..|a + b| - 1] == a + b[..n];
      LinePlaysAppend(a, b[..n]);
    }
  }

  /** A line with no node on plays nothing. */
  lemma {:induction false} SilentLine(line: seq<Cell>)
    requires forall i :: 0 <= i < |line| ==> line[i].state == 0
    ensures LinePlays(line) == []
  {
    if line != [] {
      SilentLine(line[..|line| - 1]);
    }
  }
}
