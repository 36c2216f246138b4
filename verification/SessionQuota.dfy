/** The daily session quota of services/scheduling.py: one settings cell per app day
    (for one user), checked and incremented in one transaction. */
module SessionQuota {
  type Day = nat

  /** The text of a settings value: a number, or text that `int()` rejects. */
  datatype Cell = Number(n: int) | Junk

  function Used(cells: map<Day, Cell>, day: Day): int {
    if day in cells && cells[day].Number? then cells[day].n else 0
  }

  predicate CanConsume(cells: map<Day, Cell>, day: Day, limit: int) {
    Used(cells, day) < limit
  }

  function Consumed(cells: map<Day, Cell>, day: Day): map<Day, Cell> {
    cells[day := Number(Used(cells, day) + 1)]
  }

  /** A release never goes below zero, and normalises a cell that is not "0". */
  function Released(cells: map<Day, Cell>, day: Day): map<Day, Cell> {
    if Used(cells, day) > 0 then cells[day := Number(Used(cells, day) - 1)]
    else if day in cells && cells[day] != Number(0) then cells[day := Number(0)]
    else cells
  }

  class SessionSlots {
    var cells: map<Day, Cell>

    constructor ()
      ensures cells == map[]
    {
      cells := map[];
    }

    /** `consume_session_slot`. */
    method Consume(day: Day, limit: int) returns (granted: bool)
      modifies this
      ensures granted <==> CanConsume(old(cells), day, limit)
      ensures granted <==> Used(old(cells), day) < limit
      ensures granted ==> cells == Consumed(old(cells), day) == old(cells)[day := Number(Used(old(cells), day) + 1)]
      ensures !granted ==> cells == old(cells)
    {
      var used := 0;
      if day in cells {
        match cells[day] {
          case Number(n) => used := n;
          case Junk =>
        }
      }
      if used >= limit {
        return false;
      }
      cells := cells[day := Number(used + 1)];
      return true;
    }

    /** `release_session_slot`. */
    method Release(day: Day)
      modifies this
      ensures cells == Released(old(cells), day)
    {
      var used := 0;
      if day in cells {
        match cells[day] {
          case Number(n) => used := n;
          case Junk =>
        }
      }
      if used <= 0 {
        if day in cells && cells[day] != Number(0) {
          cells := cells[day := Number(0)];
        }
        return;
      }
      cells := cells[day := Number(used - 1)];
    }
  }

  /** A release undoes a consume exactly, so a start that ends without its first
      card costs nothing; an unreadable cell heals to zero instead. */
  lemma ReleaseUndoesConsume(cells: map<Day, Cell>, day: Day)
    requires Used(cells, day) >= 0
    ensures forall d :: Used(Released(Consumed(cells, day), day), d) == Used(cells, d)
  {
  }
}
