// The tables of database.py that the application writes: equipment,
// movements and checklists, with the row-writing operations the pages call.
// Row ids follow SQLite's AUTOINCREMENT: start at 1, handed out in
// increasing order, never reused.

module Database {
  import opened Ledger

  datatype ChecklistKind = Montagem | Desmontagem | Inspecao
  datatype ChecklistStatus = Pendente | Aprovado | Reprovado

  /** A row of the 'checklists' table; `items` is the encoded item list. */
  datatype Checklist = Checklist(
    id: int,
    kind: ChecklistKind,
    site: Option<int>,
    responsible: string,
    timestamp: string,
    items: string,
    notes: string,
    status: ChecklistStatus)

  /** update_equipamento's SET clause applied to one row. */
  function Updated(row: Equipment, id: int, description: string, code: Option<string>, measure: Option<string>,
                   quantity: int, status: EquipmentStatus, notes: Option<string>): Equipment
  {
    if row.id == id then Equipment(id, description, code, measure, quantity, status, notes) else row
  }

  /** The table after `UPDATE equipamentos SET ... WHERE id=?`: same rows, in
      the same order, under the same ids. */
  function UpdatedAll(rows: seq<Equipment>, id: int, description: string, code: Option<string>, measure: Option<string>,
                      quantity: int, status: EquipmentStatus, notes: Option<string>): (r: seq<Equipment>)
    ensures |r| == |rows|
    ensures forall i :: 0 <= i < |rows| ==> r[i] == Updated(rows[i], id, description, code, measure, quantity, status, notes)
    ensures EquipmentIds(r) == EquipmentIds(rows)
  {
    seq(|rows|, i requires 0 <= i < |rows| => Updated(rows[i], id, description, code, measure, quantity, status, notes))
  }

  /** The rows left by `DELETE FROM equipamentos WHERE id=?`. */
  function Without(rows: seq<Equipment>, id: int): (r: seq<Equipment>)
    ensures forall x :: x in r <==> x in rows && x.id != id
    ensures |r| <= |rows|
  {
    if rows == [] then []
    else (if rows[0].id == id then [] else [rows[0]]) + Without(rows[1..], id)
  }

  /** The rows left by `UPDATE checklists SET status=? WHERE id=?`. */
  function WithStatus(rows: seq<Checklist>, id: int, status: ChecklistStatus): (r: seq<Checklist>)
    ensures |r| == |rows|
    ensures forall i :: 0 <= i < |rows| ==>
      r[i] == if rows[i].id == id then rows[i].(status := status) else rows[i]
    ensures ChecklistIds(r) == ChecklistIds(rows)
  {
    seq(|rows|, i requires 0 <= i < |rows| => if rows[i].id == id then rows[i].(status := status) else rows[i])
  }

  /** The id column of a table, in row order. */
  function EquipmentIds(rows: seq<Equipment>): (ids: seq<int>)
    ensures |ids| == |rows| && forall i :: 0 <= i < |rows| ==> ids[i] == rows[i].id
  {
    seq(|rows|, i requires 0 <= i < |rows| => rows[i].id)
  }

  function MovementIds(rows: seq<Movement>): (ids: seq<int>)
    ensures |ids| == |rows| && forall i :: 0 <= i < |rows| ==> ids[i] == rows[i].id
  {
    seq(|rows|, i requires 0 <= i < |rows| => rows[i].id)
  }

  function ChecklistIds(rows: seq<Checklist>): (ids: seq<int>)
    ensures |ids| == |rows| && forall i :: 0 <= i < |rows| ==> ids[i] == rows[i].id
  {
    seq(|rows|, i requires 0 <= i < |rows| => rows[i].id)
  }

  /** An id column as AUTOINCREMENT leaves it: every id at least `low`,
      strictly increasing down the table, and below `bound`. */
  predicate Ascending(ids: seq<int>, low: int, bound: int) {
    ids == [] || (low <= ids[0] < bound && Ascending(ids[1..], ids[0] + 1, bound))
  }

  /** An ascending column holds ids in [low, bound), each one once. */
  lemma {:induction false} AscendingBounds(ids: seq<int>, low: int, bound: int)
    requires Ascending(ids, low, bound)
    ensures forall i :: 0 <= i < |ids| ==> low <= ids[i] < bound
    ensures forall i, j :: 0 <= i < j < |ids| ==> ids[i] < ids[j]
  {
    if ids != [] {
      AscendingBounds(ids[1..], ids[0] + 1, bound);
      assert forall i :: 1 <= i < |ids| ==> ids[i] == ids[1..][i - 1];
    }
  }

  /** Appending the next id to hand out keeps the column ascending. */
  lemma {:induction false} AscendingAppend(ids: seq<int>, low: int, bound: int)
    requires Ascending(ids, low, bound) && low <= bound
    ensures Ascending(ids + [bound], low, bound + 1)
  {
    if ids == [] {
      assert [bound][1..] == [];
    } else {
      assert (ids + [bound])[1..] == ids[1..] + [bound];
      AscendingAppend(ids[1..], ids[0] + 1, bound);
    }
  }

  lemma AscendingLower(ids: seq<int>, low: int, high: int, bound: int)
    requires Ascending(ids, high, bound) && low <= high
    ensures Ascending(ids, low, bound)
  {
  }

  /** Deleting rows keeps the id column ascending. */
  lemma {:induction false} WithoutAscending(rows: seq<Equipment>, id: int, low: int, bound: int)
    requires Ascending(EquipmentIds(rows), low, bound)
    ensures Ascending(EquipmentIds(Without(rows, id)), low, bound)
  {
    if rows != [] {
      var tail := rows[1..];
      assert EquipmentIds(rows)[1..] == EquipmentIds(tail);
      WithoutAscending(tail, id, rows[0].id + 1, bound);
      var rest := Without(tail, id);
      if rows[0].id != id {
        var kept := [rows[0]] + rest;
        assert Without(rows, id) == kept;
        var ids := EquipmentIds(kept);
        assert ids[0] == rows[0].id && low <= ids[0] < bound;
        assert ids[1..] == EquipmentIds(rest);
      } else {
        assert Without(rows, id) == rest;
        AscendingLower(EquipmentIds(rest), low, rows[0].id + 1, bound);
      }
    }
  }

  /** Each id occurs once in the column. */
  predicate UniqueIds(ids: seq<int>) {
    forall i, j :: 0 <= i < j < |ids| ==> ids[i] != ids[j]
  }

  /** The date column of an inserted movement: a date that is given and
      truthy (`if data_movimentacao:`) is stored, otherwise CURRENT_TIMESTAMP. */
  function Stamp(when: Option<string>, clock: string): string {
    if when.Some? && when.value != [] then when.value else clock
  }

  class Store {
    var equipment: seq<Equipment>
    var movements: seq<Movement>
    var checklists: seq<Checklist>
    var nextEquipmentId: int
    var nextMovementId: int
    var nextChecklistId: int
    /** What CURRENT_TIMESTAMP reads when a row is inserted without a date. */
    var clock: string

    /** Primary keys: positive, increasing down each table, below the next id to hand out. */
    ghost predicate Valid()
      reads this
    {
      && 1 <= nextEquipmentId && 1 <= nextMovementId && 1 <= nextChecklistId
      && Ascending(EquipmentIds(equipment), 1, nextEquipmentId)
      && Ascending(MovementIds(movements), 1, nextMovementId)
      && Ascending(ChecklistIds(checklists), 1, nextChecklistId)
    }

    /** A fresh, empty database (init_database). */
    constructor (clock: string)
      ensures Valid()
      ensures equipment == [] && movements == [] && checklists == []
      ensures nextEquipmentId == 1 && nextMovementId == 1 && nextChecklistId == 1
      ensures this.clock == clock
    {
      equipment, movements, checklists := [], [], [];
      nextEquipmentId, nextMovementId, nextChecklistId := 1, 1, 1;
      this.clock := clock;
    }

    /** add_equipamento: insert one row; the status column takes its default. */
    method AddEquipment(description: string, code: Option<string>, measure: Option<string>, quantity: int, notes: Option<string>)
      returns (id: int)
      requires Valid()
      modifies this
      ensures Valid()
      ensures id == old(nextEquipmentId) && forall row :: row in old(equipment) ==> row.id != id
      ensures equipment == old(equipment) + [Equipment(id, description, code, measure, quantity, Disponivel, notes)]
      ensures movements == old(movements) && checklists == old(checklists) && clock == old(clock)
      ensures nextEquipmentId == old(nextEquipmentId) + 1
      ensures nextMovementId == old(nextMovementId) && nextChecklistId == old(nextChecklistId)
    {
      id := nextEquipmentId;
      var row := Equipment(id, description, code, measure, quantity, Disponivel, notes);
      AscendingBounds(EquipmentIds(equipment), 1, id);
      AscendingAppend(EquipmentIds(equipment), 1, id);
      assert EquipmentIds(equipment + [row]) == EquipmentIds(equipment) + [id];
      equipment := equipment + [row];
      nextEquipmentId := nextEquipmentId + 1;
    }

    /** update_equipamento: rewrite every column of the row with this id (if any). */
    method UpdateEquipment(id: int, description: string, code: Option<string>, measure: Option<string>,
                           quantity: int, status: EquipmentStatus, notes: Option<string>)
      requires Valid()
      modifies this
      ensures Valid()
      ensures equipment == UpdatedAll(old(equipment), id, description, code, measure, quantity, status, notes)
      ensures movements == old(movements) && checklists == old(checklists) && clock == old(clock)
      ensures nextEquipmentId == old(nextEquipmentId) && nextMovementId == old(nextMovementId)
      ensures nextChecklistId == old(nextChecklistId)
    {
      equipment := UpdatedAll(equipment, id, description, code, measure, quantity, status, notes);
    }

    /** delete_equipamento: remove the row; its movements stay in the log. */
    method DeleteEquipment(id: int)
      requires Valid()
      modifies this
      ensures Valid()
      ensures equipment == Without(old(equipment), id)
      ensures movements == old(movements) && checklists == old(checklists) && clock == old(clock)
      ensures nextEquipmentId == old(nextEquipmentId) && nextMovementId == old(nextMovementId)
      ensures nextChecklistId == old(nextChecklistId)
    {
      WithoutAscending(equipment, id, 1, nextEquipmentId);
      equipment := Without(equipment, id);
    }

    /** add_movimentacao: append exactly one movement and return its new id.
        A given, non-empty date is stored as it is; otherwise the row takes
        the clock. */
    method AddMovement(kind: Kind, equipmentId: int, site: Option<int>, quantity: int,
                       responsible: string, notes: string, when: Option<string>)
      returns (id: int)
      requires Valid()
      modifies this
      ensures Valid()
      ensures id == old(nextMovementId) && forall m :: m in old(movements) ==> m.id != id
      ensures movements == old(movements) + [Movement(id, kind, equipmentId, site, quantity,
        Stamp(when, clock), responsible, notes)]
      ensures equipment == old(equipment) && checklists == old(checklists) && clock == old(clock)
      ensures nextMovementId == old(nextMovementId) + 1
      ensures nextEquipmentId == old(nextEquipmentId) && nextChecklistId == old(nextChecklistId)
    {
      id := nextMovementId;
      var stamp := Stamp(when, clock);
      var m := Movement(id, kind, equipmentId, site, quantity, stamp, responsible, notes);
      AscendingBounds(MovementIds(movements), 1, id);
      AscendingAppend(MovementIds(movements), 1, id);
      assert MovementIds(movements + [m]) == MovementIds(movements) + [id];
      movements := movements + [m];
      nextMovementId := nextMovementId + 1;
    }

    /** add_checklist: insert one checklist; it starts 'pendente'. */
    method AddChecklist(kind: ChecklistKind, site: Option<int>, responsible: string, items: string, notes: string)
      returns (id: int)
      requires Valid()
      modifies this
      ensures Valid()
      ensures id == old(nextChecklistId) && forall c :: c in old(checklists) ==> c.id != id
      ensures checklists == old(checklists) + [Checklist(id, kind, site, responsible, clock, items, notes, Pendente)]
      ensures equipment == old(equipment) && movements == old(movements) && clock == old(clock)
      ensures nextChecklistId == old(nextChecklistId) + 1
      ensures nextEquipmentId == old(nextEquipmentId) && nextMovementId == old(nextMovementId)
    {
      id := nextChecklistId;
      var c := Checklist(id, kind, site, responsible, clock, items, notes, Pendente);
      AscendingBounds(ChecklistIds(checklists), 1, id);
      AscendingAppend(ChecklistIds(checklists), 1, id);
      assert ChecklistIds(checklists + [c]) == ChecklistIds(checklists) + [id];
      checklists := checklists + [c];
      nextChecklistId := nextChecklistId + 1;
    }

    /** update_checklist_status: set the status of the checklist with this id. */
    method UpdateChecklistStatus(id: int, status: ChecklistStatus)
      requires Valid()
      modifies this
      ensures Valid()
      ensures checklists == WithStatus(old(checklists), id, status)
      ensures equipment == old(equipment) && movements == old(movements) && clock == old(clock)
      ensures nextEquipmentId == old(nextEquipmentId) && nextMovementId == old(nextMovementId)
      ensures nextChecklistId == old(nextChecklistId)
    {
      checklists := WithStatus(checklists, id, status);
    }
  }

  /** In a valid store every table's ids are positive, below the next id, and
      unique: a primary key names at most one row. */
  lemma ValidIds(db: Store)
    requires db.Valid()
    ensures forall i :: 0 <= i < |db.equipment| ==> 1 <= db.equipment[i].id < db.nextEquipmentId
    ensures UniqueIds(EquipmentIds(db.equipment))
    ensures forall i :: 0 <= i < |db.movements| ==> 1 <= db.movements[i].id < db.nextMovementId
    ensures UniqueIds(MovementIds(db.movements))
    ensures forall i :: 0 <= i < |db.checklists| ==> 1 <= db.checklists[i].id < db.nextChecklistId
    ensures UniqueIds(ChecklistIds(db.checklists))
  {
    AscendingBounds(EquipmentIds(db.equipment), 1, db.nextEquipmentId);
    AscendingBounds(MovementIds(db.movements), 1, db.nextMovementId);
    AscendingBounds(ChecklistIds(db.checklists), 1, db.nextChecklistId);
  }
}
