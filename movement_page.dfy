// The ledger logic of modules/movimentacao.py: which equipment the forms offer
// for each kind and with what cap, the batch selection keyed by equipment id,
// the best-effort batch submit, and the single-movement submit.

module MovementPage {
  import opened Text
  import opened Ledger
  import opened LedgerFacts
  import opened Database

  /** 'envio' and 'retorno' are the kinds recorded against a site. */
  predicate NeedsSite(kind: Kind) {
    kind == Envio || kind == Retorno
  }

  /** The site a movement is recorded with: the one chosen on the form for
      'envio'/'retorno', none for every other kind. */
  function SiteFor(kind: Kind, chosen: Option<int>): (site: Option<int>)
    ensures NeedsSite(kind) ==> site == chosen
    ensures !NeedsSite(kind) ==> site == None
  {
    if NeedsSite(kind) then chosen else None
  }

  /** One entry of 'equipamentos_disponiveis' on the batch tab. */
  datatype Offer = Offer(id: int, description: string, cap: int)

  /** Whether `row` is offered for `kind`, and its cap ('max_qtd'). */
  function OfferFor(table: seq<Equipment>, log: seq<Movement>, kind: Kind, site: Option<int>, row: Equipment): (cap: Option<int>)
    ensures cap.Some? ==> cap.value > 0
  {
    var available := Available(table, log, row.id);
    var inMaintenance := InMaintenance(log, row.id);
    if (kind == Envio || kind == Manutencao) && available > 0 then Some(available)
    else if kind == RetornoManutencao && inMaintenance > 0 then Some(inMaintenance)
    else if kind == Perda && row.quantity > 0 then Some(row.quantity)
    else if kind == RetornoPerda then
      var lost := Lost(log, row.id);
      if lost > 0 then Some(lost) else None
    else if kind == Retorno && Given(site) then
      var sent := SentToSite(log, row.id, site.value);
      if sent > 0 then Some(sent) else None
    else None
  }

  /** The offers for the rows `rows` of the equipment table, in table order. */
  function OffersOf(rows: seq<Equipment>, table: seq<Equipment>, log: seq<Movement>, kind: Kind, site: Option<int>): (r: seq<Offer>)
    ensures |r| <= |rows|
    ensures forall k :: 0 <= k < |r| ==> r[k].cap > 0
  {
    if rows == [] then []
    else
      var row := rows[|rows| - 1];
      OffersOf(rows[..|rows| - 1], table, log, kind, site)
        + match OfferFor(table, log, kind, site, row)
          case None => []
          case Some(cap) => [Offer(row.id, row.description, cap)]
  }

  /** The eligibility loop of the batch tab. */
  method ListOffers(table: seq<Equipment>, log: seq<Movement>, kind: Kind, site: Option<int>) returns (offers: seq<Offer>)
    ensures offers == OffersOf(table, table, log, kind, site)
  {
    offers := [];
    for i := 0 to |table|
      invariant offers == OffersOf(table[..i], table, log, kind, site)
    {
      var row := table[i];
      var cap := OfferFor(table, log, kind, site, row);
      if cap.Some? {
        offers := offers + [Offer(row.id, row.description, cap.value)];
      }
      assert table[..i + 1][..i] == table[..i];
    }
    assert table[..|table|] == table;
  }

  /** Offer o describes one of `rows` that is eligible, with that row's cap. */
  predicate DescribesRow(o: Offer, rows: seq<Equipment>, table: seq<Equipment>, log: seq<Movement>, kind: Kind, site: Option<int>) {
    exists i :: 0 <= i < |rows| && OfferFor(table, log, kind, site, rows[i]) == Some(o.cap)
      && o.id == rows[i].id && o.description == rows[i].description
  }

  /** Every listed offer describes an eligible row with its cap. */
  lemma {:induction false} OffersOfSound(rows: seq<Equipment>, table: seq<Equipment>, log: seq<Movement>, kind: Kind, site: Option<int>)
    ensures forall o :: o in OffersOf(rows, table, log, kind, site) ==> DescribesRow(o, rows, table, log, kind, site)
  {
    if rows != [] {
      var n := |rows| - 1;
      var init := rows[..n];
      OffersOfSound(init, table, log, kind, site);
      forall o | o in OffersOf(init, table, log, kind, site)
        ensures DescribesRow(o, rows, table, log, kind, site)
      {
        var i :| 0 <= i < |init| && OfferFor(table, log, kind, site, init[i]) == Some(o.cap)
          && o.id == init[i].id && o.description == init[i].description;
        assert rows[i] == init[i];
      }
    }
  }

  /** Every eligible row is listed, under its id and description, with its cap. */
  lemma {:induction false} OffersOfComplete(rows: seq<Equipment>, table: seq<Equipment>, log: seq<Movement>, kind: Kind, site: Option<int>)
    ensures forall i :: 0 <= i < |rows| && OfferFor(table, log, kind, site, rows[i]).Some? ==>
      Offer(rows[i].id, rows[i].description, OfferFor(table, log, kind, site, rows[i]).value) in OffersOf(rows, table, log, kind, site)
  {
    if rows != [] {
      var n := |rows| - 1;
      var init := rows[..n];
      OffersOfComplete(init, table, log, kind, site);
      assert forall i :: 0 <= i < n ==> rows[i] == init[i];
    }
  }

  /** The cap each kind offers is exactly the validator's bound: a positive
      quantity is accepted iff the row is offered and the quantity is within
      the cap. A 'perda' is offered up to the owned quantity, not the
      available one, and is accepted whatever its size. */
  lemma OfferAgreesWithValidator(table: seq<Equipment>, log: seq<Movement>, kind: Kind, site: Option<int>, row: Equipment, q: int)
    requires q >= 1
    ensures kind != Perda && !kind.Other? ==>
      ((Validate(table, log, kind, row.id, site, q) == Accepted)
       <==> (OfferFor(table, log, kind, site, row).Some? && q <= OfferFor(table, log, kind, site, row).value))
    ensures kind == Perda ==>
      && OfferFor(table, log, kind, site, row) == (if row.quantity > 0 then Some(row.quantity) else None)
      && Validate(table, log, kind, row.id, site, q) == Accepted
    ensures kind.Other? ==> OfferFor(table, log, kind, site, row) == None
  {
  }

  /** A ticked checkbox and the number typed beside it. */
  datatype Tick = Tick(checked: bool, quantity: int)

  /** One entry of 'equipamentos_selecionados'. */
  datatype BatchItem = BatchItem(id: int, description: string, quantity: int, cap: int)

  function ItemOf(offer: Offer, tick: Tick): BatchItem {
    BatchItem(offer.id, offer.description, tick.quantity, offer.cap)
  }

  /** A dict keyed by equipment id holds one entry per id. */
  predicate KeysUnique(items: seq<BatchItem>) {
    forall i, j :: 0 <= i < j < |items| ==> items[i].id != items[j].id
  }

  /** The keys of the selection dict. */
  function Keys(items: seq<BatchItem>): set<int> {
    set x | x in items :: x.id
  }

  lemma ConsKeys(a: BatchItem, s: seq<BatchItem>)
    ensures Keys([a] + s) == {a.id} + Keys(s)
    ensures KeysUnique([a] + s) <==> a.id !in Keys(s) && KeysUnique(s)
  {
    var t := [a] + s;
    assert forall y :: y in t <==> y == a || y in s;
    ConsUnique(a, s);
  }

  lemma ConsUnique(a: BatchItem, s: seq<BatchItem>)
    ensures KeysUnique([a] + s) <==> a.id !in Keys(s) && KeysUnique(s)
  {
    var t := [a] + s;
    assert t[0] == a;
    assert forall i :: 0 <= i < |s| ==> s[i] == t[i + 1];
    if KeysUnique(t) {
      forall y | y in s
        ensures y.id != a.id
      {
        var i :| 0 <= i < |s| && s[i] == y;
        assert t[0].id != t[i + 1].id;
      }
    }
  }

  /** `selected[x.id] = x` on an insertion-ordered dict: an entry with the
      same key is replaced where it stands, otherwise x goes last. */
  function Upsert(items: seq<BatchItem>, x: BatchItem): (r: seq<BatchItem>)
    ensures KeysUnique(items) ==> KeysUnique(r)
    ensures x in r
    ensures Keys(r) == Keys(items) + {x.id}
    ensures KeysUnique(items) ==> forall y :: y in r ==> y == x || (y in items && y.id != x.id)
    ensures forall y :: y in items && y.id != x.id ==> y in r
  {
    if items == [] then [x]
    else
      var head, tail := items[0], items[1..];
      assert items == [head] + tail;
      ConsKeys(head, tail);
      if head.id == x.id then
        ConsKeys(x, tail);
        [x] + tail
      else
        var rest := Upsert(tail, x);
        ConsKeys(head, rest);
        [head] + rest
  }

  /** The selection dict after the first |offers| checkboxes: each ticked
      offer is assigned under its id, in offer order. Every entry comes from a
      ticked offer, there is one entry per id, and every ticked id is a key. */
  function Selection(offers: seq<Offer>, ticks: seq<Tick>): (r: seq<BatchItem>)
    requires |ticks| == |offers|
    ensures KeysUnique(r)
    ensures forall x :: x in r ==>
      exists i :: 0 <= i < |offers| && ticks[i].checked && x == ItemOf(offers[i], ticks[i])
    ensures forall i :: 0 <= i < |offers| && ticks[i].checked ==> offers[i].id in Keys(r)
    decreases |offers|
  {
    if offers == [] then []
    else
      var n := |offers| - 1;
      var before := Selection(offers[..n], ticks[..n]);
      assert forall i :: 0 <= i < n ==> offers[..n][i] == offers[i] && ticks[..n][i] == ticks[i];
      if ticks[n].checked then Upsert(before, ItemOf(offers[n], ticks[n])) else before
  }

  /** The ticked offers as entries, in offer order. */
  function Ticked(offers: seq<Offer>, ticks: seq<Tick>): seq<BatchItem>
    requires |ticks| == |offers|
    decreases |offers|
  {
    if offers == [] then []
    else
      var n := |offers| - 1;
      Ticked(offers[..n], ticks[..n]) + (if ticks[n].checked then [ItemOf(offers[n], ticks[n])] else [])
  }

  /** Assigning a key not yet in the dict appends the entry: a dict keeps
      insertion order. */
  lemma {:induction false} UpsertNew(items: seq<BatchItem>, x: BatchItem)
    requires forall i :: 0 <= i < |items| ==> items[i].id != x.id
    ensures Upsert(items, x) == items + [x]
  {
    if items != [] {
      var tail := items[1..];
      assert forall i :: 0 <= i < |tail| ==> tail[i] == items[i + 1];
      UpsertNew(tail, x);
      UpsertPast(items, x);
      assert [items[0]] + (tail + [x]) == items + [x];
    }
  }

  lemma UpsertPast(items: seq<BatchItem>, x: BatchItem)
    requires items != [] && items[0].id != x.id
    ensures Upsert(items, x) == [items[0]] + Upsert(items[1..], x)
  {
  }

  /** Offers list each equipment once (table ids are unique), so the
      selection holds exactly the ticked offers, in the order the form lists
      them; that is the order the batch records and reports them in. */
  lemma {:induction false} SelectionInOfferOrder(offers: seq<Offer>, ticks: seq<Tick>)
    requires |ticks| == |offers|
    requires DistinctOffers(offers)
    ensures Selection(offers, ticks) == Ticked(offers, ticks)
    decreases |offers|
  {
    if offers != [] {
      var n := |offers| - 1;
      var os, ts := offers[..n], ticks[..n];
      SelectionInOfferOrder(os, ts);
      if ticks[n].checked {
        forall i | 0 <= i < n
          ensures os[i].id != offers[n].id
        {
          assert os[i] == offers[i];
        }
        SelectionKeysFromOffers(os, ts, offers[n].id);
        UpsertNew(Selection(os, ts), ItemOf(offers[n], ticks[n]));
      }
    }
  }

  /** An id no offer has is not a key of the selection. */
  lemma SelectionKeysFromOffers(offers: seq<Offer>, ticks: seq<Tick>, id: int)
    requires |ticks| == |offers|
    requires forall i :: 0 <= i < |offers| ==> offers[i].id != id
    ensures forall k :: 0 <= k < |Selection(offers, ticks)| ==> Selection(offers, ticks)[k].id != id
  {
    var r := Selection(offers, ticks);
    forall k | 0 <= k < |r|
      ensures r[k].id != id
    {
      assert r[k] in r;
    }
  }

  /** Each offer names a different equipment. */
  predicate DistinctOffers(offers: seq<Offer>) {
    forall i, j :: 0 <= i < j < |offers| ==> offers[i].id != offers[j].id
  }

  /** An id that no row has is not offered. */
  lemma {:induction false} OffersAvoid(rows: seq<Equipment>, table: seq<Equipment>, log: seq<Movement>, kind: Kind, site: Option<int>, id: int)
    requires forall i :: 0 <= i < |rows| ==> rows[i].id != id
    ensures forall k :: 0 <= k < |OffersOf(rows, table, log, kind, site)| ==> OffersOf(rows, table, log, kind, site)[k].id != id
  {
    if rows != [] {
      var n := |rows| - 1;
      assert forall i :: 0 <= i < n ==> rows[..n][i] == rows[i];
      OffersAvoid(rows[..n], table, log, kind, site, id);
    }
  }

  lemma AppendDistinct(offers: seq<Offer>, o: Offer)
    requires DistinctOffers(offers)
    requires forall k :: 0 <= k < |offers| ==> offers[k].id != o.id
    ensures DistinctOffers(offers + [o])
  {
    var t := offers + [o];
    forall i, j | 0 <= i < j < |t|
      ensures t[i].id != t[j].id
    {
      assert t[i] == offers[i];
      if j < |offers| {
        assert t[j] == offers[j];
      }
    }
  }

  /** Dropping the last row keeps ids unique, and that row's id is not among the others. */
  lemma UniqueInit(rows: seq<Equipment>, init: seq<Equipment>)
    requires rows != [] && UniqueIds(EquipmentIds(rows)) && init == rows[..|rows| - 1]
    ensures UniqueIds(EquipmentIds(init))
    ensures forall i :: 0 <= i < |init| ==> init[i].id != rows[|rows| - 1].id
  {
    var n := |rows| - 1;
    forall i | 0 <= i < n
      ensures init[i].id != rows[n].id
    {
      assert EquipmentIds(rows)[i] != EquipmentIds(rows)[n];
    }
    forall i, j | 0 <= i < j < n
      ensures EquipmentIds(init)[i] != EquipmentIds(init)[j]
    {
      assert EquipmentIds(rows)[i] != EquipmentIds(rows)[j];
    }
  }

  /** A table whose ids are unique yields offers with unique ids. */
  lemma {:induction false} OffersOfDistinct(rows: seq<Equipment>, table: seq<Equipment>, log: seq<Movement>, kind: Kind, site: Option<int>)
    requires UniqueIds(EquipmentIds(rows))
    ensures DistinctOffers(OffersOf(rows, table, log, kind, site))
  {
    if rows != [] {
      var n := |rows| - 1;
      var init := rows[..n];
      UniqueInit(rows, init);
      OffersOfDistinct(init, table, log, kind, site);
      OffersAvoid(init, table, log, kind, site, rows[n].id);
      var before := OffersOf(init, table, log, kind, site);
      match OfferFor(table, log, kind, site, rows[n])
      case None =>
      case Some(cap) =>
        AppendDistinct(before, Offer(rows[n].id, rows[n].description, cap));
    }
  }

  /** On the page: the offers come from the equipment table, whose ids are
      unique, so the selection is the ticked offers in the order listed. */
  lemma PageSelectionInOrder(table: seq<Equipment>, log: seq<Movement>, kind: Kind, site: Option<int>, ticks: seq<Tick>)
    requires UniqueIds(EquipmentIds(table))
    requires |ticks| == |OffersOf(table, table, log, kind, site)|
    ensures Selection(OffersOf(table, table, log, kind, site), ticks) == Ticked(OffersOf(table, table, log, kind, site), ticks)
  {
    OffersOfDistinct(table, table, log, kind, site);
    SelectionInOfferOrder(OffersOf(table, table, log, kind, site), ticks);
  }

  /** The selection loop: the checkboxes in offer order, each ticked one
      assigned into the dict under its id. */
  method Select(offers: seq<Offer>, ticks: seq<Tick>) returns (selected: seq<BatchItem>)
    requires |ticks| == |offers|
    ensures selected == Selection(offers, ticks)
  {
    selected := [];
    for i := 0 to |offers|
      invariant selected == Selection(offers[..i], ticks[..i])
    {
      assert offers[..i + 1][..i] == offers[..i] && ticks[..i + 1][..i] == ticks[..i];
      if ticks[i].checked {
        selected := Upsert(selected, ItemOf(offers[i], ticks[i]));
      }
    }
    assert offers[..|offers|] == offers && ticks[..|ticks|] == ticks;
  }

  /** What the batch loop has done so far: the movement log, the next id,
      the success count and the error lines. */
  datatype BatchRun = BatchRun(log: seq<Movement>, nextId: int, successes: nat, errors: seq<string>)

  /** The batch loop as a function of the ledger it starts from: each item is
      validated against the log as it stands after the earlier items, and
      recorded only if accepted; a rejection adds "description: reason". */
  function RunBatch(table: seq<Equipment>, log: seq<Movement>, nextId: int, kind: Kind, site: Option<int>,
                    items: seq<BatchItem>, stamp: string, responsible: string, notes: string): (r: BatchRun)
    ensures r.successes + |r.errors| == |items|
    ensures |r.log| == |log| + r.successes
    ensures r.nextId == nextId + r.successes
    decreases |items|
  {
    if items == [] then BatchRun(log, nextId, 0, [])
    else
      var item := items[0];
      match Validate(table, log, kind, item.id, site, item.quantity)
      case Accepted =>
        var m := Movement(nextId, kind, item.id, site, item.quantity, stamp, responsible, notes);
        var rest := RunBatch(table, log + [m], nextId + 1, kind, site, items[1..], stamp, responsible, notes);
        rest.(successes := rest.successes + 1)
      case Rejected(reason) =>
        var rest := RunBatch(table, log, nextId, kind, site, items[1..], stamp, responsible, notes);
        rest.(errors := [item.description + ": " + reason] + rest.errors)
  }

  /** An error line names its item: it starts with the description and ": ". */
  predicate NamesItem(error: string, item: BatchItem) {
    |item.description| + 2 <= |error| && error[..|item.description| + 2] == item.description + ": "
  }

  /** The batch only appends: the movements already in the log are kept. */
  lemma {:induction false} RunBatchKeepsLog(table: seq<Equipment>, log: seq<Movement>, nextId: int, kind: Kind, site: Option<int>,
                                           items: seq<BatchItem>, stamp: string, responsible: string, notes: string)
    decreases |items|
    ensures RunBatch(table, log, nextId, kind, site, items, stamp, responsible, notes).log[..|log|] == log
  {
    if items != [] {
      var item := items[0];
      match Validate(table, log, kind, item.id, site, item.quantity)
      case Accepted =>
        var m := Movement(nextId, kind, item.id, site, item.quantity, stamp, responsible, notes);
        RunBatchKeepsLog(table, log + [m], nextId + 1, kind, site, items[1..], stamp, responsible, notes);
        var rest := RunBatch(table, log + [m], nextId + 1, kind, site, items[1..], stamp, responsible, notes);
        assert rest.log[..|log|] == (log + [m])[..|log|];
      case Rejected(_) =>
        RunBatchKeepsLog(table, log, nextId, kind, site, items[1..], stamp, responsible, notes);
    }
  }

  /** Movement m carries the equipment and quantity of one of the items. */
  predicate FromSomeItem(m: Movement, items: seq<BatchItem>) {
    exists j :: 0 <= j < |items| && m.equipment == items[j].id && m.quantity == items[j].quantity
  }

  /** The error line names one of the items. */
  predicate NamesSomeItem(error: string, items: seq<BatchItem>) {
    exists j :: 0 <= j < |items| && NamesItem(error, items[j])
  }

  lemma ItemsTail(items: seq<BatchItem>)
    requires items != []
    ensures forall m :: FromSomeItem(m, items[1..]) ==> FromSomeItem(m, items)
    ensures forall e :: NamesSomeItem(e, items[1..]) ==> NamesSomeItem(e, items)
  {
    forall m | FromSomeItem(m, items[1..]) ensures FromSomeItem(m, items) {
      var j :| 0 <= j < |items[1..]| && m.equipment == items[1..][j].id && m.quantity == items[1..][j].quantity;
      assert items[j + 1] == items[1..][j];
    }
    forall e | NamesSomeItem(e, items[1..]) ensures NamesSomeItem(e, items) {
      var j :| 0 <= j < |items[1..]| && NamesItem(e, items[1..][j]);
      assert items[j + 1] == items[1..][j];
    }
  }

  /** Movement k of `run` is the batch's own: the batch's kind and site, the
      id that was next in turn, and one item's equipment and quantity. */
  predicate RecordedByBatch(run: seq<Movement>, k: int, base: int, nextId: int, kind: Kind, site: Option<int>, items: seq<BatchItem>)
    requires 0 <= k < |run|
  {
    && run[k].id == nextId + (k - base)
    && run[k].kind == kind && run[k].site == site
    && FromSomeItem(run[k], items)
  }

  /** Each movement the batch records has the batch's kind and site, the id
      that was next in turn, and one item's equipment and quantity. */
  lemma {:induction false} RunBatchRecords(table: seq<Equipment>, log: seq<Movement>, nextId: int, kind: Kind, site: Option<int>,
                                          items: seq<BatchItem>, stamp: string, responsible: string, notes: string)
    decreases |items|
    ensures forall k :: |log| <= k < |RunBatch(table, log, nextId, kind, site, items, stamp, responsible, notes).log| ==>
      RecordedByBatch(RunBatch(table, log, nextId, kind, site, items, stamp, responsible, notes).log, k, |log|, nextId, kind, site, items)
  {
    if items != [] {
      var item := items[0];
      var tail := items[1..];
      var run := RunBatch(table, log, nextId, kind, site, items, stamp, responsible, notes);
      ItemsTail(items);
      match Validate(table, log, kind, item.id, site, item.quantity)
      case Accepted =>
        var m := Movement(nextId, kind, item.id, site, item.quantity, stamp, responsible, notes);
        RunBatchRecords(table, log + [m], nextId + 1, kind, site, tail, stamp, responsible, notes);
        RunBatchKeepsLog(table, log + [m], nextId + 1, kind, site, tail, stamp, responsible, notes);
        var rest := RunBatch(table, log + [m], nextId + 1, kind, site, tail, stamp, responsible, notes);
        assert run.log == rest.log;
        forall k | |log| <= k < |run.log|
          ensures RecordedByBatch(run.log, k, |log|, nextId, kind, site, items)
        {
          if k == |log| {
            assert rest.log[..|log| + 1] == log + [m];
            assert run.log[k] == (log + [m])[|log|] == m;
            assert m.equipment == items[0].id && m.quantity == items[0].quantity;
          } else {
            assert RecordedByBatch(rest.log, k, |log| + 1, nextId + 1, kind, site, tail);
          }
        }
      case Rejected(_) =>
        RunBatchRecords(table, log, nextId, kind, site, tail, stamp, responsible, notes);
        var rest := RunBatch(table, log, nextId, kind, site, tail, stamp, responsible, notes);
        assert run.log == rest.log;
        forall k | |log| <= k < |run.log|
          ensures RecordedByBatch(run.log, k, |log|, nextId, kind, site, items)
        {
          assert RecordedByBatch(rest.log, k, |log|, nextId, kind, site, tail);
        }
    }
  }

  /** Each error line of the batch names one of its items. */
  lemma {:induction false} RunBatchErrors(table: seq<Equipment>, log: seq<Movement>, nextId: int, kind: Kind, site: Option<int>,
                                         items: seq<BatchItem>, stamp: string, responsible: string, notes: string)
    decreases |items|
    ensures forall k :: 0 <= k < |RunBatch(table, log, nextId, kind, site, items, stamp, responsible, notes).errors| ==>
      NamesSomeItem(RunBatch(table, log, nextId, kind, site, items, stamp, responsible, notes).errors[k], items)
  {
    if items != [] {
      var item := items[0];
      var tail := items[1..];
      ItemsTail(items);
      match Validate(table, log, kind, item.id, site, item.quantity)
      case Accepted =>
        var m := Movement(nextId, kind, item.id, site, item.quantity, stamp, responsible, notes);
        RunBatchErrors(table, log + [m], nextId + 1, kind, site, tail, stamp, responsible, notes);
        assert RunBatch(table, log, nextId, kind, site, items, stamp, responsible, notes).errors
          == RunBatch(table, log + [m], nextId + 1, kind, site, tail, stamp, responsible, notes).errors;
      case Rejected(reason) =>
        RunBatchErrors(table, log, nextId, kind, site, tail, stamp, responsible, notes);
        var line := item.description + ": " + reason;
        assert NamesSomeItem(line, items) by {
          assert line[..|item.description| + 2] == item.description + ": ";
          assert NamesItem(line, items[0]);
        }
        var rest := RunBatch(table, log, nextId, kind, site, tail, stamp, responsible, notes);
        assert RunBatch(table, log, nextId, kind, site, items, stamp, responsible, notes).errors == [line] + rest.errors;
        ErrorsCons(line, rest.errors, items);
    }
  }

  /** An error line naming an item, followed by lines naming later items. */
  lemma ErrorsCons(line: string, rest: seq<string>, items: seq<BatchItem>)
    requires items != [] && NamesSomeItem(line, items)
    requires forall k :: 0 <= k < |rest| ==> NamesSomeItem(rest[k], items[1..])
    ensures forall k :: 0 <= k < |[line] + rest| ==> NamesSomeItem(([line] + rest)[k], items)
  {
    ItemsTail(items);
    forall k | 0 <= k < |[line] + rest|
      ensures NamesSomeItem(([line] + rest)[k], items)
    {
      if k > 0 {
        assert ([line] + rest)[k] == rest[k - 1];
      }
    }
  }

  /** When every item would be accepted on its own and no equipment appears
      twice, the whole batch goes through: a recorded item never changes the
      verdict on another equipment. */
  lemma {:induction false} IndependentItemsAllSucceed(table: seq<Equipment>, log: seq<Movement>, nextId: int, kind: Kind, site: Option<int>,
                                                    items: seq<BatchItem>, stamp: string, responsible: string, notes: string)
    requires KeysUnique(items)
    requires forall j :: 0 <= j < |items| ==> Validate(table, log, kind, items[j].id, site, items[j].quantity) == Accepted
    decreases |items|
    ensures RunBatch(table, log, nextId, kind, site, items, stamp, responsible, notes).errors == []
    ensures RunBatch(table, log, nextId, kind, site, items, stamp, responsible, notes).successes == |items|
  {
    if items != [] {
      var m := Movement(nextId, kind, items[0].id, site, items[0].quantity, stamp, responsible, notes);
      var tail := items[1..];
      forall j | 0 <= j < |tail|
        ensures Validate(table, log + [m], kind, tail[j].id, site, tail[j].quantity) == Accepted
      {
        assert tail[j] == items[j + 1];
        OtherEquipmentFrame(table, log, m, tail[j].id);
      }
      IndependentItemsAllSucceed(table, log + [m], nextId + 1, kind, site, tail, stamp, responsible, notes);
    }
  }

  /** Some row with the item's id is offered, with a cap of at least the item's quantity. */
  predicate OfferedIn(table: seq<Equipment>, log: seq<Movement>, kind: Kind, site: Option<int>, item: BatchItem) {
    exists i :: 0 <= i < |table| && table[i].id == item.id
      && OfferFor(table, log, kind, site, table[i]).Some? && item.quantity <= OfferFor(table, log, kind, site, table[i]).value
  }

  /** A batch chosen from the offers of the current ledger, each quantity
      between 1 and its row's cap, records every item and reports no error. */
  lemma FreshSelectionSucceeds(table: seq<Equipment>, log: seq<Movement>, nextId: int, kind: Kind, site: Option<int>,
                               items: seq<BatchItem>, stamp: string, responsible: string, notes: string)
    requires KeysUnique(items)
    requires forall j :: 0 <= j < |items| ==> 1 <= items[j].quantity && OfferedIn(table, log, kind, site, items[j])
    ensures RunBatch(table, log, nextId, kind, site, items, stamp, responsible, notes).errors == []
    ensures RunBatch(table, log, nextId, kind, site, items, stamp, responsible, notes).successes == |items|
  {
    forall j | 0 <= j < |items|
      ensures Validate(table, log, kind, items[j].id, site, items[j].quantity) == Accepted
    {
      var i :| 0 <= i < |table| && table[i].id == items[j].id
        && OfferFor(table, log, kind, site, table[i]).Some? && items[j].quantity <= OfferFor(table, log, kind, site, table[i]).value;
      OfferAgreesWithValidator(table, log, kind, site, table[i], items[j].quantity);
    }
    IndependentItemsAllSucceed(table, log, nextId, kind, site, items, stamp, responsible, notes);
  }

  /** The batch loop's tally so far plus what RunBatch does with the items
      still to come accounts for the whole batch. */
  predicate Accounted(whole: BatchRun, successes: nat, errors: seq<string>, rest: BatchRun) {
    whole == BatchRun(rest.log, rest.nextId, successes + rest.successes, errors + rest.errors)
  }

  /** The tally stays accounted for after an accepted item is recorded. */
  lemma AdvanceAccepted(table: seq<Equipment>, log: seq<Movement>, nextId: int, kind: Kind, site: Option<int>,
                        items: seq<BatchItem>, i: int, stamp: string, responsible: string, notes: string,
                        whole: BatchRun, successes: nat, errors: seq<string>)
    requires 0 <= i < |items|
    requires Validate(table, log, kind, items[i].id, site, items[i].quantity) == Accepted
    requires Accounted(whole, successes, errors, RunBatch(table, log, nextId, kind, site, items[i..], stamp, responsible, notes))
    ensures Accounted(whole, successes + 1, errors,
      RunBatch(table, log + [Movement(nextId, kind, items[i].id, site, items[i].quantity, stamp, responsible, notes)],
               nextId + 1, kind, site, items[i + 1..], stamp, responsible, notes))
  {
    assert items[i..][1..] == items[i + 1..];
  }

  /** The tally stays accounted for after a rejected item's error line is kept. */
  lemma AdvanceRejected(table: seq<Equipment>, log: seq<Movement>, nextId: int, kind: Kind, site: Option<int>,
                        items: seq<BatchItem>, i: int, stamp: string, responsible: string, notes: string,
                        whole: BatchRun, successes: nat, errors: seq<string>, line: string)
    requires 0 <= i < |items|
    requires Validate(table, log, kind, items[i].id, site, items[i].quantity).Rejected?
    requires line == items[i].description + ": " + Validate(table, log, kind, items[i].id, site, items[i].quantity).reason
    requires Accounted(whole, successes, errors, RunBatch(table, log, nextId, kind, site, items[i..], stamp, responsible, notes))
    ensures Accounted(whole, successes, errors + [line],
      RunBatch(table, log, nextId, kind, site, items[i + 1..], stamp, responsible, notes))
  {
    assert items[i..][1..] == items[i + 1..];
    var rest := RunBatch(table, log, nextId, kind, site, items[i + 1..], stamp, responsible, notes);
    assert errors + ([line] + rest.errors) == (errors + [line]) + rest.errors;
  }

  datatype BatchOutcome = BatchRefused(message: string) | BatchDone(successes: nat, errors: seq<string>)

  const NothingSelected := "⚠️ Selecione pelo menos um equipamento!"
  const BatchSiteRequired := "⚠️ Obra é obrigatória para envios e retornos!"

  /** One pass of the batch loop: validate the item against the ledger as it
      stands, then either record it or return its error line. */
  method ProcessItem(db: Store, kind: Kind, site: Option<int>, item: BatchItem,
                     date: string, responsible: string, notes: string) returns (error: Option<string>)
    requires db.Valid()
    modifies db
    ensures db.Valid()
    ensures db.equipment == old(db.equipment) && db.checklists == old(db.checklists) && db.clock == old(db.clock)
    ensures db.nextEquipmentId == old(db.nextEquipmentId) && db.nextChecklistId == old(db.nextChecklistId)
    ensures match Validate(old(db.equipment), old(db.movements), kind, item.id, site, item.quantity)
      case Accepted =>
        && error == None
        && db.movements == old(db.movements)
             + [Movement(old(db.nextMovementId), kind, item.id, site, item.quantity, Stamp(Some(date), db.clock), responsible, notes)]
        && db.nextMovementId == old(db.nextMovementId) + 1
      case Rejected(reason) =>
        && error == Some(item.description + ": " + reason)
        && db.movements == old(db.movements) && db.nextMovementId == old(db.nextMovementId)
  {
    var verdict := Validate(db.equipment, db.movements, kind, item.id, site, item.quantity);
    if verdict.Rejected? {
      return Some(item.description + ": " + verdict.reason);
    }
    var _ := db.AddMovement(kind, item.id, site, item.quantity, responsible, notes, Some(date));
    error := None;
  }

  /** One pass of the batch loop together with its bookkeeping: the tally
      still accounts for the whole batch once item i is done. */
  method RecordNext(db: Store, kind: Kind, site: Option<int>, items: seq<BatchItem>, i: int,
                    date: string, responsible: string, notes: string,
                    ghost whole: BatchRun, successes: nat, errors: seq<string>)
    returns (successes': nat, errors': seq<string>)
    requires db.Valid() && 0 <= i < |items|
    requires Accounted(whole, successes, errors,
      RunBatch(db.equipment, db.movements, db.nextMovementId, kind, site, items[i..], Stamp(Some(date), db.clock), responsible, notes))
    modifies db
    ensures db.Valid()
    ensures db.equipment == old(db.equipment) && db.checklists == old(db.checklists) && db.clock == old(db.clock)
    ensures db.nextEquipmentId == old(db.nextEquipmentId) && db.nextChecklistId == old(db.nextChecklistId)
    ensures Accounted(whole, successes', errors',
      RunBatch(db.equipment, db.movements, db.nextMovementId, kind, site, items[i + 1..], Stamp(Some(date), db.clock), responsible, notes))
  {
    ghost var table, log, next, stamp := db.equipment, db.movements, db.nextMovementId, Stamp(Some(date), db.clock);
    var error := ProcessItem(db, kind, site, items[i], date, responsible, notes);
    if error.Some? {
      AdvanceRejected(table, log, next, kind, site, items, i, stamp, responsible, notes, whole, successes, errors, error.value);
      successes', errors' := successes, errors + [error.value];
    } else {
      AdvanceAccepted(table, log, next, kind, site, items, i, stamp, responsible, notes, whole, successes, errors);
      successes', errors' := successes + 1, errors;
    }
  }

  /** The batch loop: every item in turn, recorded or reported, with the
      outcome RunBatch predicts from the ledger the loop starts on. */
  method RecordAll(db: Store, kind: Kind, site: Option<int>, items: seq<BatchItem>,
                   date: string, responsible: string, notes: string) returns (successes: nat, errors: seq<string>)
    requires db.Valid()
    modifies db
    ensures db.Valid()
    ensures db.equipment == old(db.equipment) && db.checklists == old(db.checklists) && db.clock == old(db.clock)
    ensures db.nextEquipmentId == old(db.nextEquipmentId) && db.nextChecklistId == old(db.nextChecklistId)
    ensures RunBatch(old(db.equipment), old(db.movements), old(db.nextMovementId), kind, site, items,
                     Stamp(Some(date), db.clock), responsible, notes)
      == BatchRun(db.movements, db.nextMovementId, successes, errors)
  {
    errors := [];
    successes := 0;
    ghost var whole := RunBatch(db.equipment, db.movements, db.nextMovementId, kind, site, items,
                                Stamp(Some(date), db.clock), responsible, notes);
    assert items[0..] == items;
    for i := 0 to |items|
      invariant db.Valid()
      invariant db.equipment == old(db.equipment) && db.checklists == old(db.checklists) && db.clock == old(db.clock)
      invariant db.nextEquipmentId == old(db.nextEquipmentId) && db.nextChecklistId == old(db.nextChecklistId)
      invariant Accounted(whole, successes, errors,
        RunBatch(db.equipment, db.movements, db.nextMovementId, kind, site, items[i..], Stamp(Some(date), db.clock), responsible, notes))
    {
      successes, errors := RecordNext(db, kind, site, items, i, date, responsible, notes, whole, successes, errors);
    }
  }

  /** The batch submit: refused before any write when nothing is selected or a
      site-bound kind has no site; otherwise every item is validated and
      recorded independently, best-effort. */
  method SubmitBatch(db: Store, kind: Kind, chosenSite: Option<int>, items: seq<BatchItem>,
                     date: string, responsible: string, notes: string) returns (r: BatchOutcome)
    requires db.Valid()
    modifies db
    ensures db.Valid()
    ensures db.equipment == old(db.equipment) && db.checklists == old(db.checklists) && db.clock == old(db.clock)
    ensures db.nextEquipmentId == old(db.nextEquipmentId) && db.nextChecklistId == old(db.nextChecklistId)
    ensures items == [] ==> r == BatchRefused(NothingSelected)
    ensures items != [] && NeedsSite(kind) && !Given(chosenSite) ==> r == BatchRefused(BatchSiteRequired)
    ensures r.BatchRefused? ==> db.movements == old(db.movements) && db.nextMovementId == old(db.nextMovementId)
    ensures items != [] && (!NeedsSite(kind) || Given(chosenSite)) ==>
      var run := RunBatch(old(db.equipment), old(db.movements), old(db.nextMovementId), kind,
                          SiteFor(kind, chosenSite), items, Stamp(Some(date), old(db.clock)), responsible, notes);
      r == BatchDone(run.successes, run.errors) && db.movements == run.log && db.nextMovementId == run.nextId
  {
    var site := SiteFor(kind, chosenSite);
    if items == [] {
      return BatchRefused(NothingSelected);
    }
    if NeedsSite(kind) && !Given(site) {
      return BatchRefused(BatchSiteRequired);
    }
    var successes, errors := RecordAll(db, kind, site, items, date, responsible, notes);
    r := BatchDone(successes, errors);
  }

  datatype SubmitOutcome = Recorded(id: int) | Refused(message: string)

  const SelectEquipmentAndQuantity := "Selecione um equipamento e informe a quantidade!"
  const SiteRequired := "Obra é obrigatória para envios e retornos!"

  /** The single-movement submit: needs an equipment and a positive quantity,
      and a site for 'envio'/'retorno'; then validates, and records only on
      acceptance. */
  method SubmitSingle(db: Store, kind: Kind, equipmentId: Option<int>, chosenSite: Option<int>, quantity: int,
                      date: string, responsible: string, notes: string) returns (r: SubmitOutcome)
    requires db.Valid()
    modifies db
    ensures db.Valid()
    ensures db.equipment == old(db.equipment) && db.checklists == old(db.checklists) && db.clock == old(db.clock)
    ensures db.nextEquipmentId == old(db.nextEquipmentId) && db.nextChecklistId == old(db.nextChecklistId)
    ensures !(Given(equipmentId) && quantity > 0) ==> r == Refused(SelectEquipmentAndQuantity)
    ensures Given(equipmentId) && quantity > 0 && NeedsSite(kind) && !Given(chosenSite) ==> r == Refused(SiteRequired)
    ensures Given(equipmentId) && quantity > 0 && (!NeedsSite(kind) || Given(chosenSite)) ==>
      match Validate(old(db.equipment), old(db.movements), kind, equipmentId.value, SiteFor(kind, chosenSite), quantity)
      case Accepted =>
        && r == Recorded(old(db.nextMovementId))
        && db.nextMovementId == old(db.nextMovementId) + 1
        && db.movements == old(db.movements)
             + [Movement(r.id, kind, equipmentId.value, SiteFor(kind, chosenSite), quantity,
                         Stamp(Some(date), old(db.clock)), responsible, notes)]
      case Rejected(reason) => r == Refused("❌ " + reason)
    ensures r.Refused? ==> db.movements == old(db.movements) && db.nextMovementId == old(db.nextMovementId)
  {
    var site := SiteFor(kind, chosenSite);
    if !(Given(equipmentId) && quantity > 0) {
      return Refused(SelectEquipmentAndQuantity);
    }
    if NeedsSite(kind) && !Given(site) {
      return Refused(SiteRequired);
    }
    var verdict := Validate(db.equipment, db.movements, kind, equipmentId.value, site, quantity);
    if verdict.Rejected? {
      return Refused("❌ " + verdict.reason);
    }
    var id := db.AddMovement(kind, equipmentId.value, site, quantity, responsible, notes, Some(date));
    r := Recorded(id);
  }
}
