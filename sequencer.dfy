/** The drum machine itself: a grid of step nodes whose states a touch
    toggles, and a playhead that every frame moves to the next line, draws
    that line bright and plays the drums of its nodes that are on.

    Sound is not played here: drawing a node returns the drum it fires, and
    a frame returns the drums it plays, in order. */
module Sequencer {
  import opened Geometry
  import opened StepGrid
  import opened Playhead

  /** Background colour of a node that is off. */
  const NodeBackground: Colour := RGB(1.0, 1.0, 1.0)

  /** Colour of a node that is on, by its position in the line (its voice). */
  const SelectedColours: map<int, Colour> := map[
    0 := RGB(1.0, 0.0, 0.0),
    1 := RGB(1.0, 1.0, 0.0),
    2 := RGB(0.0, 1.0, 0.0),
    3 := RGB(0.6, 1.0, 0.6),
    4 := RGB(0.0, 1.0, 1.0),
    5 := RGB(0.0, 0.0, 1.0),
    6 := RGB(0.6, 0.6, 1.0),
    7 := RGB(1.0, 0.0, 1.0)]

  /** Drum sample of each voice, by its position in the line. */
  const DrumNames: map<int, string> := map[
    0 := "Drums_01",
    1 := "Drums_02",
    2 := "Drums_03",
    3 := "Drums_04",
    4 := "Drums_05",
    5 := "Drums_06",
    6 := "Drums_07",
    7 := "Drums_08"]

  /** Voices per line and lines (time steps) in the grid built at setup. */
  const Rows: nat := 8
  const Lines: nat := 16

  /** Both tables have an entry for every voice. */
  lemma TablesCoverVoices()
    ensures forall x :: 0 <= x < Rows ==> x in SelectedColours && x in DrumNames
  {
  }

  /** One step cell: a rectangle on screen that toggles between off (0) and
      on (1) when touched and, when on, fires its drum as the playhead
      passes. */
  class Node {
    const bounds: Rect
    const bg: Colour
    const sl: Colour
    const drum: string
    var state: int
    // Where the node was placed in the grid; used only by the proofs, to
    // tell nodes apart.
    ghost const line: int
    ghost const pos: int

    /** The node's content as a value. */
    function View(): Cell
      reads this
    {
      Cell(bounds, bg, sl, drum, state)
    }

    constructor (x: real, y: real, w: real, h: real, bgcolour: Colour, slcolour: Colour,
                 drum: string, ghost line: int, ghost pos: int)
      ensures View() == Cell(Rect(x, y, w, h), bgcolour, slcolour, drum, 0)
      ensures this.line == line && this.pos == pos
    {
      bounds := Rect(x, y, w, h);
      bg := bgcolour;
      sl := slcolour;
      state := 0;
      this.drum := drum;
      this.line := line;
      this.pos := pos;
    }

    /** Flips the state through the table {0: 1, 1: 0}. */
    method Toggle()
      requires IsBit(state)
      modifies this
      ensures IsBit(state) && state != old(state)
      ensures state == Flip(old(state))
    {
      state := Flip(state);
    }

    /** Toggles the node when p lies inside its rectangle; reports whether
        it did. */
    method Hit(p: Point) returns (hit: bool)
      requires IsBit(state)
      modifies this
      ensures hit == Contains(bounds, p)
      ensures state == if hit then Flip(old(state)) else old(state)
    {
      hit := false;
      if Contains(bounds, p) {
        Toggle();
        hit := true;
      }
    }

    /** Draws the node, bright or dimmed, and fires its drum exactly when the
        node is on and drawn bright. Nothing changes. */
    method Draw(bright: bool) returns (paint: Paint, fired: Option<string>)
      ensures paint == CellPaint(View(), bright)
      ensures fired.Some? <==> state != 0 && bright
      ensures fired.Some? ==> fired.value == drum
    {
      var colour := if state != 0 then sl else bg;
      paint := Paint(bounds, colour, bright);
      fired := None;
      if state != 0 && bright {
        fired := Some(drum);
      }
    }
  }

  /** The drum machine: `nodes` holds one list of nodes per line, `curline`
      is the line played this frame and `maxline` the last line's index. */
  class DrumMachine {
    const nodebg: Colour
    const nodesl: map<int, Colour>
    const drums: map<int, string>
    var nodes: seq<seq<Node>>
    var curline: int
    var maxline: int
    // The grid as values, kept equal to the nodes' contents.
    ghost var Cells: seq<seq<Cell>>
    // The nodes of the grid.
    ghost var Repr: set<Node>

    /** The object invariant: the nodes hold the grid Cells, each node sits
        at the line and position it was made for, and the playhead is on
        one of the lines. */
    ghost predicate Valid()
      reads this, Repr
    {
      && GridValid()
      && maxline == |nodes| - 1
      && 0 <= curline <= maxline
    }

    ghost predicate GridValid()
      reads this`nodes, this`Cells, this`Repr, Repr
    {
      && |nodes| == |Cells|
      && (forall y :: 0 <= y < |nodes| ==> |nodes[y]| == |Cells[y]|)
      && (forall y, x :: 0 <= y < |nodes| && 0 <= x < |nodes[y]| ==>
            && nodes[y][x] in Repr
            && nodes[y][x].View() == Cells[y][x]
            && nodes[y][x].line == y && nodes[y][x].pos == x)
      && WellFormed(Cells)
    }

    /** Setup: the colour and drum tables, a grid of 16 lines of 8 nodes of
        size w x h, all off, and the playhead on line 0 of 0..15. */
    constructor (w: real, h: real)
      ensures Valid() && fresh(Repr)
      ensures nodebg == NodeBackground && nodesl == SelectedColours && drums == DrumNames
      ensures Cells == Layout(Rows, Lines, w, h, NodeBackground, SelectedColours, DrumNames)
      ensures curline == 0 && maxline == 15
    {
      nodebg := NodeBackground;
      nodesl := SelectedColours;
      drums := DrumNames;
      new;
      ghost var made;
      nodes, made := GenerateNodes(Rows, Lines, w, h);
      Cells := Layout(Rows, Lines, w, h, nodebg, nodesl, drums);
      Repr := made;
      LayoutAllOff(Rows, Lines, w, h, nodebg, nodesl, drums);
      curline := 0;
      maxline := |nodes| - 1;
    }

    /** Builds `lines` lists of `rows` new nodes; the node at line y,
        position x is the cell Layout puts there: rectangle (x*w, y*h, w, h),
        off, with selected colour and drum taken from the tables at x. */
    method GenerateNodes(rows: nat, lines: nat, w: real, h: real)
      returns (grid: seq<seq<Node>>, ghost made: set<Node>)
      requires forall x :: 0 <= x < rows ==> x in nodesl && x in drums
      ensures fresh(made)
      ensures |grid| == lines
      ensures forall y :: 0 <= y < lines ==> |grid[y]| == rows
      ensures forall y, x :: 0 <= y < lines && 0 <= x < rows ==>
                && grid[y][x] in made
                && grid[y][x].View() == Layout(rows, lines, w, h, nodebg, nodesl, drums)[y][x]
                && grid[y][x].line == y && grid[y][x].pos == x
    {
      ghost var L := Layout(rows, lines, w, h, nodebg, nodesl, drums);
      grid := [];
      made := {};
      var y := 0;
      while y < lines
        invariant 0 <= y <= lines && |grid| == y
        invariant fresh(made)
        invariant forall j :: 0 <= j < y ==> |grid[j]| == rows
        invariant forall j, i :: 0 <= j < y && 0 <= i < rows ==>
                    && grid[j][i] in made
                    && grid[j][i].View() == L[j][i]
                    && grid[j][i].line == j && grid[j][i].pos == i
      {
        var line;
        ghost var fresh_nodes;
        line, fresh_nodes := GenerateLine(rows, lines, y, w, h);
        grid := grid + [line];
        made := made + fresh_nodes;
        y := y + 1;
      }
    }

    /** Builds line y of the grid: `rows` new nodes, the one at position x
        being the cell Layout puts at line y, position x. */
    method GenerateLine(rows: nat, lines: nat, y: nat, w: real, h: real)
      returns (line: seq<Node>, ghost made: set<Node>)
      requires forall x :: 0 <= x < rows ==> x in nodesl && x in drums
      requires y < lines
      ensures fresh(made)
      ensures |line| == rows
      ensures forall i :: 0 <= i < rows ==>
                && line[i] in made
                && line[i].View() == Layout(rows, lines, w, h, nodebg, nodesl, drums)[y][i]
                && line[i].line == y && line[i].pos == i
    {
      ghost var cells := Layout(rows, lines, w, h, nodebg, nodesl, drums)[y];
      line := [];
      made := {};
      var x := 0;
      while x < rows
        invariant 0 <= x <= rows && |line| == x
        invariant fresh(made)
        invariant forall i :: 0 <= i < x ==>
                    && line[i] in made
                    && line[i].View() == cells[i]
                    && line[i].line == y && line[i].pos == i
      {
        var node := new Node(x as real * w, y as real * h, w, h, nodebg, nodesl[x], drums[x], y, x);
        line := line + [node];
        made := made + {node};
        x := x + 1;
      }
    }

    /** One frame: advance the playhead (wrapping past maxline), draw every
        node, bright exactly on the playhead's line, and play the drums of
        that line's nodes that are on, in position order. No node changes. */
    method Draw() returns (paints: seq<seq<Paint>>, played: seq<string>)
      requires Valid()
      modifies this`curline
      ensures Valid() && Cells == old(Cells)
      ensures curline == Advance(old(curline), maxline)
      ensures |paints| == |Cells|
      ensures forall y :: 0 <= y < |Cells| ==> LinePainted(paints[y], Cells[y], y == curline)
      ensures played == LinePlays(Cells[curline])
    {
      curline := curline + 1;
      if curline > maxline {
        curline := 0;
      }
      paints, played := DrawLines(curline);
    }

    /** Draws every line in order, line `cur` bright and the others dimmed;
        the drums played are those fired by line `cur`. Nothing changes. */
    method DrawLines(cur: int) returns (paints: seq<seq<Paint>>, played: seq<string>)
      requires GridValid() && 0 <= cur < |nodes|
      ensures |paints| == |Cells|
      ensures forall y :: 0 <= y < |Cells| ==> LinePainted(paints[y], Cells[y], y == cur)
      ensures played == LinePlays(Cells[cur])
    {
      paints, played := [], [];
      var index := 0;
      while index < |nodes|
        invariant 0 <= index <= |nodes| && |paints| == index
        invariant forall y :: 0 <= y < index ==> LinePainted(paints[y], Cells[y], y == cur)
        invariant played == if cur < index then LinePlays(Cells[cur]) else []
      {
        var bright := false;
        if index == cur {
          bright := true;
        }
        var shown, fired := DrawLine(index, bright);
        paints := paints + [shown];
        played := played + fired;
        index := index + 1;
      }
    }

    /** `shown` is the line of cells `cells` painted bright or dimmed. */
    static ghost predicate LinePainted(shown: seq<Paint>, cells: seq<Cell>, bright: bool)
    {
      |shown| == |cells| && forall i :: 0 <= i < |cells| ==> shown[i] == CellPaint(cells[i], bright)
    }

    /** Draws the nodes of line `index` in position order, all bright or
        all dimmed; the drums fired are those of the line's nodes that are
        on, in position order, and none when the line is dimmed. */
    method DrawLine(index: int, bright: bool) returns (shown: seq<Paint>, fired: seq<string>)
      requires GridValid() && 0 <= index < |nodes|
      ensures LinePainted(shown, Cells[index], bright)
      ensures fired == if bright then LinePlays(Cells[index]) else []
    {
      ghost var cells := Cells[index];
      var line := nodes[index];
      shown, fired := [], [];
      var x := 0;
      while x < |line|
        invariant 0 <= x <= |line| && |shown| == x
        invariant forall i :: 0 <= i < x ==> shown[i] == CellPaint(cells[i], bright)
        invariant fired == if bright then LinePlays(cells[..x]) else []
      {
        var paint, drum := line[x].Draw(bright);
        shown := shown + [paint];
        assert cells[..x + 1][..x] == cells[..x];
        if drum.Some? {
          fired := fired + [drum.value];
        }
        x := x + 1;
      }
      assert cells[..|line|] == cells;
    }

    /** A touch at p: scanning lines in order and each line's nodes in
        order, the first node whose rectangle contains p toggles and the
        scan stops. The grid becomes Touch(old grid, p); the playhead does
        not move. */
    method TouchBegan(p: Point)
      requires Valid()
      modifies this`Cells, Repr
      ensures Valid() && curline == old(curline)
      ensures Cells == Touch(old(Cells), p)
    {
      var y := 0;
      while y < |nodes|
        invariant 0 <= y <= |nodes|
        invariant Valid() && Cells == old(Cells)
        invariant forall j, i :: 0 <= j < y && InGrid(Cells, j, i) ==> !Contains(Cells[j][i].bounds, p)
      {
        var hit := TouchLine(y, p);
        if hit {
          ghost var x := FirstHitInLine(old(Cells)[y], p, 0).value;
          FirstHitExactly(old(Cells), p, y, x);
          return;
        }
        y := y + 1;
      }
      assert Missed(Cells, p);
    }

    /** The scan of line y for a touch at p: the first node of the line
        whose rectangle contains p toggles and the scan stops; no other node
        changes, and without such a node nothing changes. */
    method TouchLine(y: int, p: Point) returns (hit: bool)
      requires GridValid() && 0 <= y < |nodes|
      modifies this`Cells, Repr
      ensures GridValid()
      ensures hit == FirstHitInLine(old(Cells)[y], p, 0).Some?
      ensures Cells == if hit then Toggled(old(Cells), y, FirstHitInLine(old(Cells)[y], p, 0).value)
                       else old(Cells)
    {
      var line := nodes[y];
      var x := 0;
      while x < |line|
        invariant 0 <= x <= |line|
        invariant GridValid() && Cells == old(Cells)
        invariant forall i :: 0 <= i < x ==> !Contains(Cells[y][i].bounds, p)
      {
        hit := line[x].Hit(p);
        if hit {
          Cells := Toggled(Cells, y, x);
          return;
        }
        x := x + 1;
      }
      hit := false;
    }
  }

  /** A session from setup: a touch in the middle of the first voice's node
      on line 1 turns that node on, and the first frame, which lights line 1,
      plays exactly that node's drum. */
  method FirstBeat(w: real, h: real) returns (played: seq<string>)
    requires w > 0.0 && h > 0.0
    ensures played == ["Drums_01"]
  {
    var machine := new DrumMachine(w, h);
    var p := Point(w / 2.0, h + h / 2.0);
    FirstBeatGrid(w, h, p);
    machine.TouchBegan(p);
    var paints;
    paints, played := machine.Draw();
  }

  /** On the grid built at setup, the touch of FirstBeat toggles line 1,
      position 0, and line 1 then plays that node's drum alone. */
  lemma FirstBeatGrid(w: real, h: real, p: Point)
    requires w > 0.0 && h > 0.0 && p == Point(w / 2.0, h + h / 2.0)
    ensures WellFormed(Layout(Rows, Lines, w, h, NodeBackground, SelectedColours, DrumNames))
    ensures LinePlays(Touch(Layout(Rows, Lines, w, h, NodeBackground, SelectedColours, DrumNames), p)[1])
            == ["Drums_01"]
  {
    var L: seq<seq<Cell>> := Layout(Rows, Lines, w, h, NodeBackground, SelectedColours, DrumNames);
    FirstBeatTouch(w, h, p);
    var line: seq<Cell> := Toggled(L, 1, 0)[1];
    var c: Cell := line[0];
    assert c.state == 1 && c.drum == "Drums_01";
    assert line == [c] + line[1..];
    assert forall i :: 0 <= i < |line[1..]| ==> line[1..][i] == L[1][i + 1];
    LinePlaysAppend([c], line[1..]);
    SilentLine(line[1..]);
    assert LinePlays([c]) == LinePlays([c][..0]) + [c.drum];
  }

  /** The touch of FirstBeat hits the node at line 1, position 0 of the grid
      built at setup. */
  lemma FirstBeatTouch(w: real, h: real, p: Point)
    requires w > 0.0 && h > 0.0 && p == Point(w / 2.0, h + h / 2.0)
    ensures WellFormed(Layout(Rows, Lines, w, h, NodeBackground, SelectedColours, DrumNames))
    ensures forall i :: 0 <= i < Rows ==>
              Layout(Rows, Lines, w, h, NodeBackground, SelectedColours, DrumNames)[1][i].state == 0
    ensures Touch(Layout(Rows, Lines, w, h, NodeBackground, SelectedColours, DrumNames), p)
            == Toggled(Layout(Rows, Lines, w, h, NodeBackground, SelectedColours, DrumNames), 1, 0)
  {
    TablesCoverVoices();
    LayoutAllOff(Rows, Lines, w, h, NodeBackground, SelectedColours, DrumNames);
    FirstBeatHit(w, h, p);
  }

  /** The first hit of the touch of FirstBeat on the grid built at setup is
      the node at line 1, position 0. */
  lemma FirstBeatHit(w: real, h: real, p: Point)
    requires w > 0.0 && h > 0.0 && p == Point(w / 2.0, h + h / 2.0)
    ensures FirstHit(Layout(Rows, Lines, w, h, NodeBackground, SelectedColours, DrumNames), p) == Some(Pos(1, 0))
  {
    MidpointCell(w, h, p);
    TablesCoverVoices();
    LayoutHitIsCellUnderPoint(Rows, Lines, w, h, NodeBackground, SelectedColours, DrumNames, p);
  }

  /** The touch point of FirstBeat lies on the grid built at setup, in the
      node at line 1 (one and a half nodes down), position 0 (half a node
      across). */
  lemma MidpointCell(w: real, h: real, p: Point)
    requires w > 0.0 && h > 0.0 && p == Point(w / 2.0, h + h / 2.0)
    ensures 0.0 <= p.x < Rows as real * w && 0.0 <= p.y < Lines as real * h
    ensures (p.y / h).Floor == 1 && (p.x / w).Floor == 0
  {
    assert p.x == 0.5 * w && p.y == 1.5 * h;
    assert p.x / w == 0.5 && p.y / h == 1.5;
  }
}
