/** points.py: the `Point` class and the module-level counter that hands
    out point ids. Elsewhere in this model a point is identified by the id
    it receives here (`Common.Pid`). */
module Points {
  import opened Common

  /** The module-level `unique_point_id`. */
  class PointCounter {
    var next: nat

    constructor()
      ensures next == 0
    {
      next := 0;
    }
  }

  /** The `name` attribute: the point id when no name was given. */
  datatype PointName = IdName(id: nat) | Named(text: string)

  class Point {
    const pointId: nat
    var x: real
    var y: real
    var name: PointName
    var forceMaintain: bool

    /** `Point(x, y, name, force_maintain, lon_lat)`: takes the counter's
        value as id and advances the counter by one; with `lon_lat` the
        two coordinates are swapped. */
    constructor(counter: PointCounter, x: real, y: real, name: Option<string>, forceMaintain: bool, lonLat: bool)
      modifies counter
      ensures pointId == old(counter.next) && counter.next == old(counter.next) + 1
      ensures lonLat ==> this.x == y && this.y == x
      ensures !lonLat ==> this.x == x && this.y == y
      ensures this.name == if name.None? then IdName(pointId) else Named(name.value)
      ensures this.forceMaintain == forceMaintain
    {
      pointId := counter.next;
      if lonLat {
        this.x, this.y := y, x;
      } else {
        this.x, this.y := x, y;
      }
      this.name := if name.None? then IdName(counter.next) else Named(name.value);
      this.forceMaintain := forceMaintain;
      new;
      counter.next := counter.next + 1;
    }

    /** `point + (dx, dy)`: shifts the point in place; the expression's
        value is None. */
    method Add(dx: real, dy: real)
      modifies this
      ensures x == old(x) + dx && y == old(y) + dy
      ensures name == old(name) && forceMaintain == old(forceMaintain)
    {
      x := x + dx;
      y := y + dy;
    }

    /** `location()`: the pair `(x, y)`. */
    function Location(): (c: Coord)
      reads this
      ensures c.x == x && c.y == y
    {
      Coord(x, y)
    }
  }
}
