// The equipment logic of modules/equipamentos.py: descriptions are
// upper-cased before they are checked or stored, registration and editing
// refuse a description another row already has, and the detail view shows
// an "Enviado" figure derived from the ledger.

module EquipmentPage {
  import opened Ledger
  import opened LedgerFacts
  import opened Database

  /** Python's str.upper() on one character, for ASCII and Latin-1: the
      letters a-z and à-þ (but not ÷) move up by 32, ß becomes "SS", ÿ becomes
      Ÿ and µ becomes the Greek capital mu. Every other character is kept. */
  function UpperOf(c: char): (r: string)
    ensures 1 <= |r| <= 2
    ensures forall i :: 0 <= i < |r| ==> !('a' <= r[i] <= 'z')
  {
    if 'a' <= c <= 'z' then [(c as int - 32) as char]
    else if '\U{E0}' <= c <= '\U{FE}' && c != '\U{F7}' then [(c as int - 32) as char]
    else if c == '\U{DF}' then "SS"
    else if c == '\U{FF}' then ['\U{178}']
    else if c == '\U{B5}' then ['\U{39C}']
    else [c]
  }

  /** Python's str.upper(), character by character. */
  function Upper(s: string): (r: string)
    ensures |s| <= |r| <= 2 * |s|
    ensures forall i :: 0 <= i < |r| ==> !('a' <= r[i] <= 'z')
  {
    if s == [] then []
    else
      var head := UpperOf(s[0]);
      var rest := Upper(s[1..]);
      assert forall i :: |head| <= i < |head + rest| ==> (head + rest)[i] == rest[i - |head|];
      head + rest
  }

  lemma {:induction false} UpperAppend(a: string, b: string)
    ensures Upper(a + b) == Upper(a) + Upper(b)
  {
    if a == [] {
      assert a + b == b;
    } else {
      assert (a + b)[0] == a[0];
      assert (a + b)[1..] == a[1..] + b;
      UpperAppend(a[1..], b);
    }
  }

  /** An upper-cased character upper-cases to itself. */
  lemma UpperOfFixed(c: char)
    ensures Upper(UpperOf(c)) == UpperOf(c)
  {
    var u := UpperOf(c);
    if |u| == 1 {
      assert u[1..] == [];
    } else {
      assert u == "SS";
      assert u[1..] == "S" && u[1..][1..] == [];
    }
  }

  /** Upper-casing twice is upper-casing once: a stored description is its
      own normal form. */
  lemma {:induction false} UpperIdempotent(s: string)
    ensures Upper(Upper(s)) == Upper(s)
  {
    if s != [] {
      UpperAppend(UpperOf(s[0]), Upper(s[1..]));
      UpperOfFixed(s[0]);
      UpperIdempotent(s[1..]);
    }
  }

  /** Different spellings of one description meet in one stored form. */
  lemma LowerSpelling()
    ensures Upper("tubo 2m") == "TUBO 2M"
  {
  }

  lemma SameDescription()
    ensures Upper("tubo 2m") == Upper("TUBO 2M") == "TUBO 2M"
  {
    LowerSpelling();
    UpperIdempotent("tubo 2m");
  }

  /** No two rows share a description. */
  predicate DescriptionsUnique(table: seq<Equipment>) {
    forall i, j :: 0 <= i < j < |table| ==> table[i].description != table[j].description
  }

  /** A row whose description nobody has can be appended. */
  lemma AppendKeepsUnique(table: seq<Equipment>, row: Equipment)
    requires DescriptionsUnique(table)
    requires !DescriptionTaken(table, row.description, None)
    ensures DescriptionsUnique(table + [row])
  {
    var t := table + [row];
    forall i, j | 0 <= i < j < |t|
      ensures t[i].description != t[j].description
    {
      if j == |table| {
        assert !Collides(table[i], row.description, None);
      }
    }
  }

  /** Rewriting row `id` with a description no other row has keeps
      descriptions unique, given that ids are unique. */
  lemma UpdateKeepsUnique(table: seq<Equipment>, id: int, description: string, code: Option<string>,
                          measure: Option<string>, quantity: int, status: EquipmentStatus, notes: Option<string>)
    requires DescriptionsUnique(table)
    requires UniqueIds(EquipmentIds(table))
    requires !DescriptionTaken(table, description, Some(id))
    ensures DescriptionsUnique(UpdatedAll(table, id, description, code, measure, quantity, status, notes))
  {
    var t := UpdatedAll(table, id, description, code, measure, quantity, status, notes);
    forall i, j | 0 <= i < j < |t|
      ensures t[i].description != t[j].description
    {
      assert EquipmentIds(table)[i] == table[i].id && EquipmentIds(table)[j] == table[j].id;
      if table[i].id == id {
        assert !Collides(table[j], description, Some(id));
      } else if table[j].id == id {
        assert !Collides(table[i], description, Some(id));
      }
    }
  }

  /** Deleting a row keeps descriptions unique. */
  lemma {:induction false} WithoutKeepsUnique(table: seq<Equipment>, id: int)
    requires DescriptionsUnique(table)
    ensures DescriptionsUnique(Without(table, id))
  {
    if table != [] {
      var tail := table[1..];
      TailKeepsUnique(table);
      WithoutKeepsUnique(tail, id);
      var rest := Without(tail, id);
      if table[0].id != id {
        forall k | 0 <= k < |rest|
          ensures rest[k].description != table[0].description
        {
          assert rest[k] in rest;
          var m :| 0 <= m < |tail| && tail[m] == rest[k];
          assert table[m + 1] == tail[m];
        }
        ConsKeepsUnique(table[0], rest);
        assert Without(table, id) == [table[0]] + rest;
      } else {
        assert Without(table, id) == rest;
      }
    }
  }

  lemma TailKeepsUnique(table: seq<Equipment>)
    requires table != [] && DescriptionsUnique(table)
    ensures DescriptionsUnique(table[1..])
  {
    var tail := table[1..];
    forall i, j | 0 <= i < j < |tail|
      ensures tail[i].description != tail[j].description
    {
      assert tail[i] == table[i + 1] && tail[j] == table[j + 1];
    }
  }

  lemma ConsKeepsUnique(row: Equipment, rest: seq<Equipment>)
    requires DescriptionsUnique(rest)
    requires forall k :: 0 <= k < |rest| ==> rest[k].description != row.description
    ensures DescriptionsUnique([row] + rest)
  {
    var t := [row] + rest;
    forall i, j | 0 <= i < j < |t|
      ensures t[i].description != t[j].description
    {
      assert t[j] == rest[j - 1];
      if i > 0 {
        assert t[i] == rest[i - 1];
      }
    }
  }

  /** On edit, keeping a row's own description is never a collision. */
  lemma OwnDescriptionAllowed(table: seq<Equipment>, k: int)
    requires DescriptionsUnique(table)
    requires 0 <= k < |table| && table[k].id != 0
    ensures !DescriptionTaken(table, table[k].description, Some(table[k].id))
  {
    forall i | 0 <= i < |table|
      ensures !Collides(table[i], table[k].description, Some(table[k].id))
    {
      if i < k {
        assert table[i].description != table[k].description;
      } else if k < i {
        assert table[k].description != table[i].description;
      }
    }
  }

  /** On edit, taking another row's description is a collision. */
  lemma OtherDescriptionRefused(table: seq<Equipment>, k: int, other: int)
    requires UniqueIds(EquipmentIds(table))
    requires 0 <= k < |table| && 0 <= other < |table| && k != other
    ensures DescriptionTaken(table, table[other].description, Some(table[k].id))
  {
    assert EquipmentIds(table)[k] == table[k].id && EquipmentIds(table)[other] == table[other].id;
    assert table[other].id != table[k].id;
    assert Collides(table[other], table[other].description, Some(table[k].id));
  }

  const RequiredFields := "❌ Descrição e quantidade são obrigatórios!"

  function DuplicateOnRegister(description: string): string {
    "❌ Já existe um equipamento com a descrição '" + description + "'. Use uma descrição diferente!"
  }

  function DuplicateOnEdit(description: string): string {
    "❌ Já existe outro equipamento com a descrição '" + description + "'. Use uma descrição diferente!"
  }

  /** What a form submission did: stored the row with this id, or refused. */
  datatype FormOutcome = Stored(id: int) | Refused(message: string)

  /** An optional text field: an empty entry is stored as NULL. */
  function OrNone(s: string): (r: Option<string>)
    ensures r.None? <==> s == []
    ensures r.Some? ==> r.value == s
  {
    if s == [] then None else Some(s)
  }

  /** The register form: the description is upper-cased; it must be non-empty
      and the quantity positive; a description already in the table is
      refused; otherwise one row is appended with status 'disponivel'. */
  method Register(db: Store, input: string, code: string, measure: string, quantity: int, notes: string)
    returns (r: FormOutcome)
    requires db.Valid() && DescriptionsUnique(db.equipment)
    modifies db
    ensures db.Valid() && DescriptionsUnique(db.equipment)
    ensures db.movements == old(db.movements) && db.checklists == old(db.checklists) && db.clock == old(db.clock)
    ensures db.nextMovementId == old(db.nextMovementId) && db.nextChecklistId == old(db.nextChecklistId)
    ensures r.Refused? ==> db.nextEquipmentId == old(db.nextEquipmentId)
    ensures r.Stored? ==> r.id == old(db.nextEquipmentId) && db.nextEquipmentId == old(db.nextEquipmentId) + 1
    ensures input == [] || quantity <= 0 ==>
      r == Refused(RequiredFields) && db.equipment == old(db.equipment)
    ensures input != [] && quantity > 0 && DescriptionTaken(old(db.equipment), Upper(input), None) ==>
      r == Refused(DuplicateOnRegister(Upper(input))) && db.equipment == old(db.equipment)
    ensures input != [] && quantity > 0 && !DescriptionTaken(old(db.equipment), Upper(input), None) ==>
      && r.Stored?
      && db.equipment == old(db.equipment) + [Equipment(r.id, Upper(input), OrNone(code), OrNone(measure), quantity, Disponivel, OrNone(notes))]
  {
    var description := Upper(input);
    if !(description != [] && quantity > 0) {
      return Refused(RequiredFields);
    }
    if DescriptionTaken(db.equipment, description, None) {
      return Refused(DuplicateOnRegister(description));
    }
    AppendKeepsUnique(db.equipment, Equipment(db.nextEquipmentId, description, OrNone(code), OrNone(measure), quantity, Disponivel, OrNone(notes)));
    var id := db.AddEquipment(description, OrNone(code), OrNone(measure), quantity, OrNone(notes));
    r := Stored(id);
  }

  /** Registering the same description twice, in any letter case, leaves one
      row: the second submission is refused. */
  method RegisterTwice(db: Store, first: string, second: string, quantity: int)
    returns (a: FormOutcome, b: FormOutcome)
    requires db.Valid() && DescriptionsUnique(db.equipment)
    requires first != [] && quantity > 0 && Upper(first) == Upper(second)
    modifies db
    ensures db.Valid() && DescriptionsUnique(db.equipment)
    ensures b == Refused(DuplicateOnRegister(Upper(first)))
    ensures |db.equipment| <= |old(db.equipment)| + 1
  {
    a := Register(db, first, "", "", quantity, "");
    assert DescriptionTaken(db.equipment, Upper(first), None) by {
      if a.Stored? {
        assert Collides(db.equipment[|db.equipment| - 1], Upper(first), None);
      }
    }
    assert second != [] by {
      assert |Upper(first)| >= 1;
    }
    b := Register(db, second, "", "", quantity, "");
  }

  /** The edit form of row `id`: the description is upper-cased; it must be
      non-empty and the quantity positive; a description another row has is
      refused, the row's own is not; otherwise every column of the row is
      rewritten, empty code, measure and notes staying empty strings. */
  method Edit(db: Store, id: int, input: string, code: string, measure: string, quantity: int,
              status: EquipmentStatus, notes: string) returns (r: FormOutcome)
    requires db.Valid() && DescriptionsUnique(db.equipment)
    modifies db
    ensures db.Valid() && DescriptionsUnique(db.equipment)
    ensures db.movements == old(db.movements) && db.checklists == old(db.checklists) && db.clock == old(db.clock)
    ensures db.nextEquipmentId == old(db.nextEquipmentId) && db.nextMovementId == old(db.nextMovementId)
    ensures db.nextChecklistId == old(db.nextChecklistId)
    ensures input == [] || quantity <= 0 ==>
      r == Refused(RequiredFields) && db.equipment == old(db.equipment)
    ensures input != [] && quantity > 0 && DescriptionTaken(old(db.equipment), Upper(input), Some(id)) ==>
      r == Refused(DuplicateOnEdit(Upper(input))) && db.equipment == old(db.equipment)
    ensures input != [] && quantity > 0 && !DescriptionTaken(old(db.equipment), Upper(input), Some(id)) ==>
      && r == Stored(id)
      && db.equipment == UpdatedAll(old(db.equipment), id, Upper(input), Some(code), Some(measure), quantity, status, Some(notes))
  {
    var description := Upper(input);
    if !(description != [] && quantity > 0) {
      return Refused(RequiredFields);
    }
    if DescriptionTaken(db.equipment, description, Some(id)) {
      return Refused(DuplicateOnEdit(description));
    }
    ValidIds(db);
    UpdateKeepsUnique(db.equipment, id, description, Some(code), Some(measure), quantity, status, Some(notes));
    db.UpdateEquipment(id, description, Some(code), Some(measure), quantity, status, Some(notes));
    r := Stored(id);
  }

  /** The "Enviado" figure of the detail view, as the page computes it:
      owned minus available minus in maintenance. */
  function SentShown(table: seq<Equipment>, log: seq<Movement>, row: Equipment): (r: int)
    ensures Find(table, row.id) == Some(row) && log == [] && row.quantity >= 0 ==> r == 0
  {
    row.quantity - Available(table, log, row.id) - InMaintenance(log, row.id)
  }

  /** As written, lost units are shown as sent: on a balanced ledger the
      figure is the units at sites plus the units lost. */
  lemma SentShownCountsLosses(table: seq<Equipment>, log: seq<Movement>, row: Equipment)
    requires Find(table, row.id) == Some(row) && Balanced(table, log, row.id)
    ensures SentShown(table, log, row) == SentNet(log, row.id) + Lost(log, row.id)
  {
    Conservation(table, log, row.id);
  }

  /** Ten units owned, three declared lost, none ever sent: the page shows
      three as sent. */
  lemma SentShownCounterexample(row: Equipment, loss: Movement)
    requires row.quantity == 10
    requires loss == Movement(1, Perda, row.id, None, 3, "", "", "")
    ensures SentNet([loss], row.id) == 0
    ensures SentShown([row], [loss], row) == 3
  {
    assert [loss] == [] + [loss];
    RecordEffect([], loss, row.id);
  }

  /** The sent figure with losses taken out as well. */
  function SentCorrected(table: seq<Equipment>, log: seq<Movement>, row: Equipment): int {
    row.quantity - Available(table, log, row.id) - InMaintenance(log, row.id) - Lost(log, row.id)
  }

  /** On a balanced ledger the corrected figure is exactly the units at sites. */
  lemma SentCorrectedIsSent(table: seq<Equipment>, log: seq<Movement>, row: Equipment)
    requires Find(table, row.id) == Some(row) && Balanced(table, log, row.id)
    ensures SentCorrected(table, log, row) == SentNet(log, row.id)
  {
    Conservation(table, log, row.id);
  }
}
