// The stock ledger of database.py: the equipment and movement records, the
// balance queries that recompute every figure from the movement log, the
// per-site overview, the movement validator and the duplicate-description
// query. Everything here is a pure function of the two tables; the tables
// themselves live in the Store class (module Database).

module Ledger {
  import opened Text

  datatype Option<T> = None | Some(value: T)

  /** Python truthiness of an optional row id (`if obra_id:`): None and 0 are
      both false. SQLite's AUTOINCREMENT never hands out 0. */
  predicate Given(id: Option<int>) {
    id.Some? && id.value != 0
  }

  /** The movement kinds ('tipo'). Other stands for any tag that is not one of
      the six the application writes. */
  datatype Kind =
    | Envio              // 'envio': warehouse -> site
    | Retorno            // 'retorno': site -> warehouse
    | Manutencao         // 'manutencao': warehouse -> maintenance
    | RetornoManutencao  // 'retorno_manutencao': maintenance -> warehouse
    | Perda              // 'perda': declared lost
    | RetornoPerda       // 'retorno_perda': a loss reversed
    | Other(tag: string)

  /** The informational status tag of an equipment row; never read by the ledger. */
  datatype EquipmentStatus = Disponivel | Enviado | EmManutencao | Perdido

  /** A row of the 'equipamentos' table. `quantity` is the nominal number owned. */
  datatype Equipment = Equipment(
    id: int,
    description: string,
    code: Option<string>,
    measure: Option<string>,
    quantity: int,
    status: EquipmentStatus,
    notes: Option<string>)

  /** A row of the append-only 'movimentacoes' table. */
  datatype Movement = Movement(
    id: int,
    kind: Kind,
    equipment: int,
    site: Option<int>,
    quantity: int,
    timestamp: string,
    responsible: string,
    notes: string)

  /** `SELECT quantidade FROM equipamentos WHERE id = ?`: the first row with that id. */
  function Find(table: seq<Equipment>, id: int): (r: Option<Equipment>)
    ensures r.Some? ==> r.value in table && r.value.id == id
    ensures r.None? <==> forall i :: 0 <= i < |table| ==> table[i].id != id
  {
    if table == [] then None
    else if table[0].id == id then Some(table[0])
    else Find(table[1..], id)
  }

  /** What one movement adds to `SUM(CASE WHEN tipo = k THEN quantidade ELSE 0 END)`
      restricted to `equipamento_id = e`. */
  function Contribution(m: Movement, e: int, k: Kind): int {
    if m.equipment == e && m.kind == k then m.quantity else 0
  }

  /** Sum of the quantities of the movements of kind k for equipment e
      (COALESCE makes the empty sum 0). */
  function Total(log: seq<Movement>, e: int, k: Kind): int {
    if log == [] then 0 else Contribution(log[0], e, k) + Total(log[1..], e, k)
  }

  /** As Contribution, further restricted to `obra_id = s`. */
  function ContributionAt(m: Movement, e: int, s: int, k: Kind): int {
    if m.site == Some(s) then Contribution(m, e, k) else 0
  }

  function TotalAt(log: seq<Movement>, e: int, s: int, k: Kind): int {
    if log == [] then 0 else ContributionAt(log[0], e, s, k) + TotalAt(log[1..], e, s, k)
  }

  /** Units sent to sites and not yet returned, over all sites. */
  function SentNet(log: seq<Movement>, e: int): int {
    Total(log, e, Envio) - Total(log, e, Retorno)
  }

  function MaintenanceNet(log: seq<Movement>, e: int): int {
    Total(log, e, Manutencao) - Total(log, e, RetornoManutencao)
  }

  function LossNet(log: seq<Movement>, e: int): int {
    Total(log, e, Perda) - Total(log, e, RetornoPerda)
  }

  /** Units at site s: sends there minus returns from there. */
  function SiteNet(log: seq<Movement>, e: int, s: int): int {
    TotalAt(log, e, s, Envio) - TotalAt(log, e, s, Retorno)
  }

  /** 'quantidade_indisponivel': everything out of the warehouse. */
  function Outstanding(log: seq<Movement>, e: int): int {
    SentNet(log, e) + MaintenanceNet(log, e) + LossNet(log, e)
  }

  /** Python's max(0, x). */
  function Clamp(x: int): nat {
    if x < 0 then 0 else x
  }

  /** get_quantidade_disponivel: 0 for an unknown id, otherwise the owned
      quantity minus everything outstanding, clamped at zero. */
  function Available(table: seq<Equipment>, log: seq<Movement>, e: int): (r: nat)
    ensures Find(table, e).None? ==> r == 0
    ensures Find(table, e).Some? ==> (r == 0 <==> Find(table, e).value.quantity <= Outstanding(log, e))
    ensures r > 0 ==> Find(table, e).Some? && r + Outstanding(log, e) == Find(table, e).value.quantity
    ensures log == [] && Find(table, e).Some? ==> r == Clamp(Find(table, e).value.quantity)
  {
    match Find(table, e)
    case None => 0
    case Some(row) => Clamp(row.quantity - Outstanding(log, e))
  }

  /** get_quantidade_enviada_obra. */
  function SentToSite(log: seq<Movement>, e: int, s: int): (r: nat)
    ensures r == 0 <==> TotalAt(log, e, s, Envio) <= TotalAt(log, e, s, Retorno)
    ensures r > 0 ==> r + TotalAt(log, e, s, Retorno) == TotalAt(log, e, s, Envio)
    ensures log == [] ==> r == 0
  {
    Clamp(SiteNet(log, e, s))
  }

  /** get_quantidade_em_manutencao. */
  function InMaintenance(log: seq<Movement>, e: int): (r: nat)
    ensures r == 0 <==> Total(log, e, Manutencao) <= Total(log, e, RetornoManutencao)
    ensures r > 0 ==> r + Total(log, e, RetornoManutencao) == Total(log, e, Manutencao)
    ensures log == [] ==> r == 0
  {
    Clamp(MaintenanceNet(log, e))
  }

  /** get_quantidade_perdida. */
  function Lost(log: seq<Movement>, e: int): (r: nat)
    ensures r == 0 <==> Total(log, e, Perda) <= Total(log, e, RetornoPerda)
    ensures r > 0 ==> r + Total(log, e, RetornoPerda) == Total(log, e, Perda)
    ensures log == [] ==> r == 0
  {
    Clamp(LossNet(log, e))
  }

  /** One row of get_equipamentos_enviados_obra. */
  datatype SiteRow = SiteRow(id: int, description: string, net: int)

  /** The JOIN condition: equipment e has some movement recorded against site s. */
  predicate HasMovementAt(log: seq<Movement>, e: int, s: int) {
    exists i :: 0 <= i < |log| && log[i].equipment == e && log[i].site == Some(s)
  }

  /** get_equipamentos_enviados_obra: every equipment row with a movement at
      site s whose send-minus-return net there is positive, with that net. */
  function SentOverview(table: seq<Equipment>, log: seq<Movement>, s: int): (r: seq<SiteRow>)
    ensures |r| <= |table|
    ensures forall row :: row in r ==>
      && row.net > 0
      && row.net == SentToSite(log, row.id, s)
      && HasMovementAt(log, row.id, s)
      && (exists i :: 0 <= i < |table| && table[i].id == row.id && table[i].description == row.description)
    ensures forall i :: 0 <= i < |table| && HasMovementAt(log, table[i].id, s) && SiteNet(log, table[i].id, s) > 0 ==>
      SiteRow(table[i].id, table[i].description, SiteNet(log, table[i].id, s)) in r
  {
    if table == [] then []
    else
      var e := table[0];
      var net := SiteNet(log, e.id, s);
      var rest := SentOverview(table[1..], log, s);
      assert forall i :: 1 <= i < |table| ==> table[i] == table[1..][i - 1];
      (if HasMovementAt(log, e.id, s) && net > 0 then [SiteRow(e.id, e.description, net)] else []) + rest
  }

  /** The validator's answer: (True, "Movimentação válida") or (False, reason). */
  datatype Verdict = Accepted | Rejected(reason: string)

  const InsufficientAvailable := "Quantidade disponível insuficiente. Disponível: "
  const ReturnExceedsSent := "Quantidade de retorno superior ao enviado. Enviado para esta obra: "
  const SiteRequiredForReturn := "Obra é obrigatória para retornos"
  const InsufficientForMaintenance := "Quantidade disponível insuficiente para manutenção. Disponível: "
  const InsufficientInMaintenance := "Quantidade em manutenção insuficiente. Em manutenção: "
  const InsufficientLost := "Quantidade perdida insuficiente. Perdidas: "

  /** validar_movimentacao: accept or reject a proposed movement of quantity q
      of kind `kind` for equipment e against the current ledger. */
  function Validate(table: seq<Equipment>, log: seq<Movement>, kind: Kind, e: int, site: Option<int>, q: int): (r: Verdict)
    ensures (kind == Envio || kind == Manutencao) ==> (r == Accepted <==> q <= Available(table, log, e))
    ensures kind == Envio && r.Rejected? ==> r.reason == InsufficientAvailable + DecimalString(Available(table, log, e))
    ensures kind == Manutencao && r.Rejected? ==> r.reason == InsufficientForMaintenance + DecimalString(Available(table, log, e))
    ensures kind == Retorno && !Given(site) ==> r == Rejected(SiteRequiredForReturn)
    ensures kind == Retorno && Given(site) ==>
      && (r == Accepted <==> q <= SentToSite(log, e, site.value))
      && (r.Rejected? ==> r.reason == ReturnExceedsSent + DecimalString(SentToSite(log, e, site.value)))
    ensures kind == RetornoManutencao ==>
      && (r == Accepted <==> q <= InMaintenance(log, e))
      && (r.Rejected? ==> r.reason == InsufficientInMaintenance + DecimalString(InMaintenance(log, e)))
    ensures kind == RetornoPerda ==>
      && (r == Accepted <==> q <= Lost(log, e))
      && (r.Rejected? ==> r.reason == InsufficientLost + DecimalString(Lost(log, e)))
    ensures (kind == Perda || kind.Other?) ==> r == Accepted
  {
    match kind
    case Envio =>
      var available := Available(table, log, e);
      if q > available then Rejected(InsufficientAvailable + DecimalString(available)) else Accepted
    case Retorno =>
      if Given(site) then
        var sent := SentToSite(log, e, site.value);
        if q > sent then Rejected(ReturnExceedsSent + DecimalString(sent)) else Accepted
      else Rejected(SiteRequiredForReturn)
    case Manutencao =>
      var available := Available(table, log, e);
      if q > available then Rejected(InsufficientForMaintenance + DecimalString(available)) else Accepted
    case RetornoManutencao =>
      var inMaintenance := InMaintenance(log, e);
      if q > inMaintenance then Rejected(InsufficientInMaintenance + DecimalString(inMaintenance)) else Accepted
    case RetornoPerda =>
      var lost := Lost(log, e);
      if q > lost then Rejected(InsufficientLost + DecimalString(lost)) else Accepted
    case Perda => Accepted
    case Other(_) => Accepted
  }

  /** The row filter of equipamento_existe: same description, and a different
      id when an id to exclude is given (the edit case). */
  predicate Collides(row: Equipment, description: string, exclude: Option<int>) {
    row.description == description && (!Given(exclude) || row.id != exclude.value)
  }

  /** `SELECT COUNT(*) FROM equipamentos WHERE descricao = ? [AND id != ?]`. */
  function CountCollisions(table: seq<Equipment>, description: string, exclude: Option<int>): (n: nat)
    ensures n <= |table|
    ensures n > 0 <==> exists i :: 0 <= i < |table| && Collides(table[i], description, exclude)
  {
    if table == [] then 0
    else
      var rest := CountCollisions(table[1..], description, exclude);
      assert forall i :: 1 <= i < |table| ==> table[i] == table[1..][i - 1];
      (if Collides(table[0], description, exclude) then 1 else 0) + rest
  }

  /** equipamento_existe. */
  predicate DescriptionTaken(table: seq<Equipment>, description: string, exclude: Option<int>)
    ensures DescriptionTaken(table, description, exclude) <==>
      exists i :: 0 <= i < |table| && Collides(table[i], description, exclude)
  {
    CountCollisions(table, description, exclude) > 0
  }
}
