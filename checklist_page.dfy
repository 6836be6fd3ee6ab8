// The checklist logic of modules/checklists.py: the fixed item template per
// checklist kind, the encoding of the ticked items and free-text extras into
// the stored text, the decoding of that text for display, the save guard and
// the status buttons.

module ChecklistPage {
  import opened Text
  import opened Ledger
  import opened Database

  const MontagemItems: seq<string> := [
    "Base nivelada e estável",
    "Fundação adequada",
    "Tubos em bom estado (sem corrosão/danos)",
    "Braçadeiras apertadas corretamente",
    "Travamento entre tubos adequado",
    "Pranchas de trabalho fixas",
    "Guarda-corpo instalado",
    "Rodapé instalado",
    "Escadas de acesso seguras",
    "Sinalização instalada"
  ]

  const DesmontagemItems: seq<string> := [
    "Área isolada e sinalizada",
    "Remoção de materiais da plataforma",
    "Verificação de equipamentos presos",
    "Desmontagem sequencial (topo para base)",
    "Armazenamento organizado dos componentes",
    "Contagem de peças desmontadas",
    "Verificação de danos nos componentes",
    "Limpeza da área após desmontagem"
  ]

  const InspecaoItems: seq<string> := [
    "Estado geral da estrutura",
    "Fixações e braçadeiras",
    "Deformações ou danos visíveis",
    "Estabilidade da estrutura",
    "Proteções coletivas",
    "Acessos e saídas",
    "Documentação atualizada",
    "Conformidade com projeto"
  ]

  /** The items the form offers as checkboxes for each kind of checklist. */
  function Template(kind: ChecklistKind): seq<string> {
    match kind
    case Montagem => MontagemItems
    case Desmontagem => DesmontagemItems
    case Inspecao => InspecaoItems
  }

  /** A line the reader gives back unchanged: not blank, no surrounding white
      space, no line break inside. */
  predicate Line(l: string) {
    l != [] && Stripped(l) && '\n' !in l
  }

  /** Template sizes are fixed per kind. */
  lemma TemplateSizes(kind: ChecklistKind)
    ensures |Template(kind)| == if kind == Montagem then 10 else 8
  {
  }

  // One lemma per item: each literal is checked on its own, which keeps every
  // proof small.
  lemma MontagemLine0() ensures Line(MontagemItems[0]) {}
  lemma MontagemLine1() ensures Line(MontagemItems[1]) {}
  lemma MontagemLine2() ensures Line(MontagemItems[2]) {}
  lemma MontagemLine3() ensures Line(MontagemItems[3]) {}
  lemma MontagemLine4() ensures Line(MontagemItems[4]) {}
  lemma MontagemLine5() ensures Line(MontagemItems[5]) {}
  lemma MontagemLine6() ensures Line(MontagemItems[6]) {}
  lemma MontagemLine7() ensures Line(MontagemItems[7]) {}
  lemma MontagemLine8() ensures Line(MontagemItems[8]) {}
  lemma MontagemLine9() ensures Line(MontagemItems[9]) {}

  lemma MontagemLines()
    ensures forall i :: 0 <= i < |MontagemItems| ==> Line(MontagemItems[i])
  {
    MontagemLine0();
    MontagemLine1();
    MontagemLine2();
    MontagemLine3();
    MontagemLine4();
    MontagemLine5();
    MontagemLine6();
    MontagemLine7();
    MontagemLine8();
    MontagemLine9();
  }

  lemma DesmontagemLine0() ensures Line(DesmontagemItems[0]) {}
  lemma DesmontagemLine1() ensures Line(DesmontagemItems[1]) {}
  lemma DesmontagemLine2() ensures Line(DesmontagemItems[2]) {}
  lemma DesmontagemLine3() ensures Line(DesmontagemItems[3]) {}
  lemma DesmontagemLine4() ensures Line(DesmontagemItems[4]) {}
  lemma DesmontagemLine5() ensures Line(DesmontagemItems[5]) {}
  lemma DesmontagemLine6() ensures Line(DesmontagemItems[6]) {}
  lemma DesmontagemLine7() ensures Line(DesmontagemItems[7]) {}

  lemma DesmontagemLines()
    ensures forall i :: 0 <= i < |DesmontagemItems| ==> Line(DesmontagemItems[i])
  {
    DesmontagemLine0();
    DesmontagemLine1();
    DesmontagemLine2();
    DesmontagemLine3();
    DesmontagemLine4();
    DesmontagemLine5();
    DesmontagemLine6();
    DesmontagemLine7();
  }

  lemma InspecaoLine0() ensures Line(InspecaoItems[0]) {}
  lemma InspecaoLine1() ensures Line(InspecaoItems[1]) {}
  lemma InspecaoLine2() ensures Line(InspecaoItems[2]) {}
  lemma InspecaoLine3() ensures Line(InspecaoItems[3]) {}
  lemma InspecaoLine4() ensures Line(InspecaoItems[4]) {}
  lemma InspecaoLine5() ensures Line(InspecaoItems[5]) {}
  lemma InspecaoLine6() ensures Line(InspecaoItems[6]) {}
  lemma InspecaoLine7() ensures Line(InspecaoItems[7]) {}

  lemma InspecaoLines()
    ensures forall i :: 0 <= i < |InspecaoItems| ==> Line(InspecaoItems[i])
  {
    InspecaoLine0();
    InspecaoLine1();
    InspecaoLine2();
    InspecaoLine3();
    InspecaoLine4();
    InspecaoLine5();
    InspecaoLine6();
    InspecaoLine7();
  }

  /** Every template item is a line. */
  lemma TemplateLines(kind: ChecklistKind)
    ensures forall i :: 0 <= i < |Template(kind)| ==> Line(Template(kind)[i])
  {
    match kind
    case Montagem => MontagemLines();
    case Desmontagem => DesmontagemLines();
    case Inspecao => InspecaoLines();
  }

  const Checked := "✓ "
  const Unchecked := "✗ "
  const Bullet := "• "

  /** One template item as stored: its tick mark, a space, the item. */
  function Mark(item: string, checked: bool): string {
    (if checked then Checked else Unchecked) + item
  }

  /** The checkbox loop: one marked line per template item, in template order. */
  method MarkTemplate(items: seq<string>, checked: seq<bool>) returns (lines: seq<string>)
    requires |checked| == |items|
    ensures |lines| == |items|
    ensures forall i :: 0 <= i < |items| ==> lines[i] == Mark(items[i], checked[i])
  {
    lines := [];
    for i := 0 to |items|
      invariant |lines| == i
      invariant forall k :: 0 <= k < i ==> lines[k] == Mark(items[k], checked[k])
    {
      lines := lines + [Mark(items[i], checked[i])];
    }
  }

  /** The pieces of a text that are not blank, stripped, in order: what the
      reader keeps, and what the extras become before their bullet. */
  function Cleaned(pieces: seq<string>): (r: seq<string>)
    ensures |r| <= |pieces|
    ensures forall k :: 0 <= k < |r| ==> r[k] != [] && Stripped(r[k])
  {
    if pieces == [] then []
    else
      var head := Strip(pieces[0]);
      (if head == [] then [] else [head]) + Cleaned(pieces[1..])
  }

  /** The number of pieces that are not blank. */
  function CountNonBlank(pieces: seq<string>): nat {
    if pieces == [] then 0
    else (if IsBlank(pieces[0]) then 0 else 1) + CountNonBlank(pieces[1..])
  }

  /** Cleaning keeps one line per non-blank piece. */
  lemma {:induction false} CleanedCount(pieces: seq<string>)
    ensures |Cleaned(pieces)| == CountNonBlank(pieces)
  {
    if pieces != [] {
      CleanedCount(pieces[1..]);
    }
  }

  /** Pieces without a line break clean to lines without one. */
  lemma {:induction false} CleanedNoBreak(pieces: seq<string>)
    requires forall i :: 0 <= i < |pieces| ==> '\n' !in pieces[i]
    ensures forall k :: 0 <= k < |Cleaned(pieces)| ==> Line(Cleaned(pieces)[k])
  {
    if pieces != [] {
      var head := Strip(pieces[0]);
      var rest := Cleaned(pieces[1..]);
      var front := if head == [] then [] else [head];
      assert Cleaned(pieces) == front + rest;
      StripKeepsOut(pieces[0], '\n');
      assert forall i :: 0 <= i < |pieces[1..]| ==> pieces[1..][i] == pieces[i + 1];
      CleanedNoBreak(pieces[1..]);
      forall k | 0 <= k < |front + rest|
        ensures Line((front + rest)[k])
      {
        if k < |front| {
          assert (front + rest)[k] == head;
        } else {
          assert (front + rest)[k] == rest[k - |front|];
        }
      }
    }
  }

  /** The free-text extras as stored lines: split on line breaks, blank ones
      dropped, each stripped and given a bullet. */
  function ExtraLines(extras: string): (r: seq<string>)
    ensures |r| == |Cleaned(Split(extras, '\n'))|
    ensures forall k :: 0 <= k < |r| ==> r[k] == Bullet + Cleaned(Split(extras, '\n'))[k]
  {
    var kept := Cleaned(Split(extras, '\n'));
    seq(|kept|, k requires 0 <= k < |kept| => Bullet + kept[k])
  }

  /** The marked template items, in template order. */
  function MarkedItems(items: seq<string>, checked: seq<bool>): (r: seq<string>)
    requires |checked| == |items|
    ensures |r| == |items|
    ensures forall i :: 0 <= i < |items| ==> r[i] == Mark(items[i], checked[i])
  {
    seq(|items|, i requires 0 <= i < |items| => Mark(items[i], checked[i]))
  }

  /** Every line the form stores, in order: the marked template items, then
      the bulleted extras. */
  function EncodedLines(items: seq<string>, checked: seq<bool>, extras: string): seq<string>
    requires |checked| == |items|
  {
    MarkedItems(items, checked) + ExtraLines(extras)
  }

  /** The display reader: an empty text shows nothing; otherwise split on
      line breaks, strip each piece and skip the blank ones. */
  function Decode(text: string): (r: seq<string>)
    ensures forall k :: 0 <= k < |r| ==> Line(r[k])
    ensures |r| == CountNonBlank(Split(text, '\n'))
  {
    CleanedNoBreak(Split(text, '\n'));
    CleanedCount(Split(text, '\n'));
    if text == [] then [] else Cleaned(Split(text, '\n'))
  }

  /** A mark followed by a line is a line. */
  lemma PrefixedLine(mark: string, l: string)
    requires mark != [] && !IsSpace(mark[0]) && '\n' !in mark
    requires Line(l)
    ensures Line(mark + l)
  {
    var t := mark + l;
    assert t[0] == mark[0];
    assert t[|t| - 1] == l[|l| - 1];
    forall i | 0 <= i < |t|
      ensures t[i] != '\n'
    {
      if i < |mark| {
        assert t[i] == mark[i];
      } else {
        assert t[i] == l[i - |mark|];
      }
    }
  }

  /** Marking line-shaped template items gives lines. */
  lemma MarkedAreLines(items: seq<string>, checked: seq<bool>)
    requires |checked| == |items|
    requires forall i :: 0 <= i < |items| ==> Line(items[i])
    ensures forall k :: 0 <= k < |items| ==> Line(MarkedItems(items, checked)[k])
  {
    forall k | 0 <= k < |items|
      ensures Line(MarkedItems(items, checked)[k])
    {
      PrefixedLine(if checked[k] then Checked else Unchecked, items[k]);
    }
  }

  /** Whatever the user types as extras, each stored extra is a line. */
  lemma ExtrasAreLines(extras: string)
    ensures forall k :: 0 <= k < |ExtraLines(extras)| ==> Line(ExtraLines(extras)[k])
  {
    var kept := Cleaned(Split(extras, '\n'));
    CleanedNoBreak(Split(extras, '\n'));
    forall k | 0 <= k < |kept|
      ensures Line(ExtraLines(extras)[k])
    {
      PrefixedLine(Bullet, kept[k]);
    }
  }

  /** Every stored line of a checklist built from line-shaped template items
      is itself a line. */
  lemma EncodedAreLines(items: seq<string>, checked: seq<bool>, extras: string)
    requires |checked| == |items|
    requires forall i :: 0 <= i < |items| ==> Line(items[i])
    ensures forall k :: 0 <= k < |EncodedLines(items, checked, extras)| ==> Line(EncodedLines(items, checked, extras)[k])
  {
    MarkedAreLines(items, checked);
    ExtrasAreLines(extras);
  }

  /** A line is its own strip and is not blank. */
  lemma LineIsClean(l: string)
    requires Line(l)
    ensures Strip(l) == l && !IsBlank(l)
  {
    assert !IsSpace(l[0]);
  }

  /** Cleaning pieces that are already lines changes nothing. */
  lemma {:induction false} CleanedLines(lines: seq<string>)
    requires forall k :: 0 <= k < |lines| ==> Line(lines[k])
    ensures Cleaned(lines) == lines
  {
    if lines != [] {
      LineIsClean(lines[0]);
      CleanedLines(lines[1..]);
    }
  }

  /** Reading back what was joined gives exactly the lines, when each is a line. */
  lemma DecodeJoin(lines: seq<string>)
    requires forall k :: 0 <= k < |lines| ==> Line(lines[k])
    ensures Decode(Join(lines, '\n')) == lines
  {
    if lines != [] {
      SplitJoin(lines, '\n');
      CleanedLines(lines);
    }
  }

  /** The encoding loop and the join: the stored text. */
  method EncodeItems(items: seq<string>, checked: seq<bool>, extras: string) returns (text: string)
    requires |checked| == |items|
    requires forall i :: 0 <= i < |items| ==> Line(items[i])
    ensures text == Join(EncodedLines(items, checked, extras), '\n')
    ensures Decode(text) == EncodedLines(items, checked, extras)
    ensures |Decode(text)| == |items| + CountNonBlank(Split(extras, '\n'))
  {
    var lines := MarkTemplate(items, checked);
    assert lines == MarkedItems(items, checked);
    if extras != [] {
      lines := lines + ExtraLines(extras);
    } else {
      assert Split(extras, '\n') == [""];
      assert Cleaned([""]) == [];
    }
    assert lines == EncodedLines(items, checked, extras);
    text := Join(lines, '\n');
    EncodedAreLines(items, checked, extras);
    DecodeJoin(lines);
    CleanedCount(Split(extras, '\n'));
  }

  const SiteAndResponsibleRequired := "Obra e responsável são obrigatórios!"

  datatype SaveOutcome = Saved(id: int) | NotSaved(message: string)

  /** The save button: needs a site and a non-empty responsible name; then
      stores one 'pendente' checklist whose text is the encoded lines joined
      by line breaks, and so reads back as those lines. Without them nothing is stored. */
  method SaveChecklist(db: Store, kind: ChecklistKind, site: Option<int>, responsible: string,
                       checked: seq<bool>, extras: string, notes: string) returns (r: SaveOutcome)
    requires db.Valid()
    requires |checked| == |Template(kind)|
    modifies db
    ensures db.Valid()
    ensures db.equipment == old(db.equipment) && db.movements == old(db.movements) && db.clock == old(db.clock)
    ensures db.nextEquipmentId == old(db.nextEquipmentId) && db.nextMovementId == old(db.nextMovementId)
    ensures !(Given(site) && responsible != []) ==>
      && r == NotSaved(SiteAndResponsibleRequired)
      && db.checklists == old(db.checklists) && db.nextChecklistId == old(db.nextChecklistId)
    ensures Given(site) && responsible != [] ==>
      && r == Saved(old(db.nextChecklistId))
      && db.nextChecklistId == old(db.nextChecklistId) + 1
      && |db.checklists| == |old(db.checklists)| + 1
      && db.checklists[..|old(db.checklists)|] == old(db.checklists)
      && var c := db.checklists[|old(db.checklists)|];
         && c == Checklist(r.id, kind, site, responsible, db.clock, c.items, notes, Pendente)
         && c.items == Join(EncodedLines(Template(kind), checked, extras), '\n')
         && Decode(c.items) == EncodedLines(Template(kind), checked, extras)
  {
    if !(Given(site) && responsible != []) {
      return NotSaved(SiteAndResponsibleRequired);
    }
    TemplateLines(kind);
    var text := EncodeItems(Template(kind), checked, extras);
    var id := db.AddChecklist(kind, site, responsible, text, notes);
    r := Saved(id);
  }

  /** The three status buttons. */
  datatype StatusAction = Approve | Reject | MarkPending

  function ActionStatus(a: StatusAction): ChecklistStatus {
    match a
    case Approve => Aprovado
    case Reject => Reprovado
    case MarkPending => Pendente
  }

  /** The status column's text. */
  function StatusName(s: ChecklistStatus): string {
    match s
    case Pendente => "pendente"
    case Aprovado => "aprovado"
    case Reprovado => "reprovado"
  }

  /** A status button: that checklist, and only it, takes the button's status;
      every other column of every row is kept. */
  method ApplyStatusAction(db: Store, id: int, a: StatusAction)
    requires db.Valid()
    modifies db
    ensures db.Valid()
    ensures db.equipment == old(db.equipment) && db.movements == old(db.movements) && db.clock == old(db.clock)
    ensures db.nextEquipmentId == old(db.nextEquipmentId) && db.nextMovementId == old(db.nextMovementId)
    ensures db.nextChecklistId == old(db.nextChecklistId)
    ensures |db.checklists| == |old(db.checklists)|
    ensures forall i :: 0 <= i < |db.checklists| && old(db.checklists)[i].id == id ==>
      db.checklists[i] == old(db.checklists)[i].(status := ActionStatus(a))
    ensures forall i :: 0 <= i < |db.checklists| && old(db.checklists)[i].id != id ==>
      db.checklists[i] == old(db.checklists)[i]
  {
    db.UpdateChecklistStatus(id, ActionStatus(a));
  }

  /** Each button stores its own status name: "aprovado", "reprovado" or
      "pendente", and different buttons store different names. */
  lemma ActionNames(a: StatusAction, b: StatusAction)
    ensures StatusName(ActionStatus(Approve)) == "aprovado"
    ensures StatusName(ActionStatus(Reject)) == "reprovado"
    ensures StatusName(ActionStatus(MarkPending)) == "pendente"
    ensures a != b ==> StatusName(ActionStatus(a)) != StatusName(ActionStatus(b))
  {
  }

  /** Status writes on one checklist: the last one wins, so pressing a button
      twice is the same as pressing it once. */
  lemma StatusLastWins(rows: seq<Checklist>, id: int, s: ChecklistStatus, t: ChecklistStatus)
    ensures WithStatus(WithStatus(rows, id, s), id, t) == WithStatus(rows, id, t)
  {
  }
}
