// Properties of the stock ledger: how one recorded movement changes each
// balance, which balances it cannot touch, what the validator's verdict
// means, and the invariant that validated movements keep.

module LedgerFacts {
  import opened Text
  import opened Ledger

  lemma {:induction false} TotalAppend(log: seq<Movement>, m: Movement, e: int, k: Kind)
    ensures Total(log + [m], e, k) == Total(log, e, k) + Contribution(m, e, k)
  {
    if log == [] {
      assert [m][1..] == [];
    } else {
      assert (log + [m])[1..] == log[1..] + [m];
      TotalAppend(log[1..], m, e, k);
    }
  }

  lemma {:induction false} TotalAtAppend(log: seq<Movement>, m: Movement, e: int, s: int, k: Kind)
    ensures TotalAt(log + [m], e, s, k) == TotalAt(log, e, s, k) + ContributionAt(m, e, s, k)
  {
    if log == [] {
      assert [m][1..] == [];
    } else {
      assert (log + [m])[1..] == log[1..] + [m];
      TotalAtAppend(log[1..], m, e, s, k);
    }
  }

  /** Recording one movement changes each net of e by exactly that movement's
      own share, and nothing else. */
  lemma RecordEffect(log: seq<Movement>, m: Movement, e: int)
    ensures SentNet(log + [m], e) == SentNet(log, e) + Contribution(m, e, Envio) - Contribution(m, e, Retorno)
    ensures MaintenanceNet(log + [m], e) == MaintenanceNet(log, e) + Contribution(m, e, Manutencao) - Contribution(m, e, RetornoManutencao)
    ensures LossNet(log + [m], e) == LossNet(log, e) + Contribution(m, e, Perda) - Contribution(m, e, RetornoPerda)
    ensures forall s :: SiteNet(log + [m], e, s) == SiteNet(log, e, s) + ContributionAt(m, e, s, Envio) - ContributionAt(m, e, s, Retorno)
  {
    TotalAppend(log, m, e, Envio);
    TotalAppend(log, m, e, Retorno);
    TotalAppend(log, m, e, Manutencao);
    TotalAppend(log, m, e, RetornoManutencao);
    TotalAppend(log, m, e, Perda);
    TotalAppend(log, m, e, RetornoPerda);
    forall s ensures SiteNet(log + [m], e, s) == SiteNet(log, e, s) + ContributionAt(m, e, s, Envio) - ContributionAt(m, e, s, Retorno) {
      TotalAtAppend(log, m, e, s, Envio);
      TotalAtAppend(log, m, e, s, Retorno);
    }
  }

  /** Only e's own movements are summed: a movement of another equipment leaves
      every balance of e, and every verdict about e, as it was. */
  lemma OtherEquipmentFrame(table: seq<Equipment>, log: seq<Movement>, m: Movement, e: int)
    requires m.equipment != e
    ensures Available(table, log + [m], e) == Available(table, log, e)
    ensures InMaintenance(log + [m], e) == InMaintenance(log, e)
    ensures Lost(log + [m], e) == Lost(log, e)
    ensures forall s :: SentToSite(log + [m], e, s) == SentToSite(log, e, s)
    ensures forall kind, site, q :: Validate(table, log + [m], kind, e, site, q) == Validate(table, log, kind, e, site, q)
  {
    RecordEffect(log, m, e);
  }

  /** sent_to_site(e, s) counts only 'envio'/'retorno' rows with exactly
      equipment e and site s. */
  lemma SiteFrame(log: seq<Movement>, m: Movement, e: int, s: int)
    requires m.equipment != e || m.site != Some(s) || (m.kind != Envio && m.kind != Retorno)
    ensures SentToSite(log + [m], e, s) == SentToSite(log, e, s)
  {
    TotalAtAppend(log, m, e, s, Envio);
    TotalAtAppend(log, m, e, s, Retorno);
  }

  /** Recording an accepted 'envio' or 'manutencao' of q > 0 units lowers the
      available figure by exactly q. */
  lemma AcceptedOutboundLowersAvailable(table: seq<Equipment>, log: seq<Movement>, m: Movement)
    requires m.kind == Envio || m.kind == Manutencao
    requires m.quantity > 0
    requires Validate(table, log, m.kind, m.equipment, m.site, m.quantity) == Accepted
    ensures Available(table, log + [m], m.equipment) == Available(table, log, m.equipment) - m.quantity
  {
    RecordEffect(log, m, m.equipment);
  }

  /** Sending q units of e to site s and then returning q units from s leaves
      every balance of e as it was before the send. */
  lemma SendReturnRoundTrip(table: seq<Equipment>, log: seq<Movement>, send: Movement, back: Movement)
    requires send.kind == Envio && back.kind == Retorno
    requires send.equipment == back.equipment && send.quantity == back.quantity
    requires send.site.Some? && back.site == send.site
    ensures Available(table, log + [send, back], send.equipment) == Available(table, log, send.equipment)
    ensures SentToSite(log + [send, back], send.equipment, send.site.value) == SentToSite(log, send.equipment, send.site.value)
    ensures InMaintenance(log + [send, back], send.equipment) == InMaintenance(log, send.equipment)
    ensures Lost(log + [send, back], send.equipment) == Lost(log, send.equipment)
  {
    var e := send.equipment;
    assert log + [send, back] == (log + [send]) + [back];
    RecordEffect(log, send, e);
    RecordEffect(log + [send], back, e);
  }

  /** Scenario: 10 owned, send 4 to a site, return 1 from it. */
  lemma SendThenPartialReturn(row: Equipment, s: int, send: Movement, back: Movement)
    requires row.quantity == 10 && s != 0
    requires send == Movement(1, Envio, row.id, Some(s), 4, "", "", "")
    requires back == Movement(2, Retorno, row.id, Some(s), 1, "", "", "")
    ensures Available([row], [], row.id) == 10
    ensures Validate([row], [], Envio, row.id, Some(s), 4) == Accepted
    ensures Available([row], [send], row.id) == 6 && SentToSite([send], row.id, s) == 4
    ensures Validate([row], [send], Retorno, row.id, Some(s), 1) == Accepted
    ensures Available([row], [send, back], row.id) == 7 && SentToSite([send, back], row.id, s) == 3
  {
    RecordEffect([], send, row.id);
    assert [send] == [] + [send];
    RecordEffect([send], back, row.id);
  }

  /** The ledger of e is balanced when no unclamped figure is negative: the
      owned quantity covers everything outstanding, and no maintenance, loss
      or per-site net has been over-returned. */
  ghost predicate Balanced(table: seq<Equipment>, log: seq<Movement>, e: int) {
    && (Find(table, e).Some? ==> Find(table, e).value.quantity - Outstanding(log, e) >= 0)
    && MaintenanceNet(log, e) >= 0
    && LossNet(log, e) >= 0
    && forall s :: SiteNet(log, e, s) >= 0
  }

  /** Every validated movement of positive quantity other than a 'perda' keeps
      the ledger balanced, for its own equipment and every other. */
  lemma AcceptedKeepsBalanced(table: seq<Equipment>, log: seq<Movement>, m: Movement, e: int)
    requires Balanced(table, log, e)
    requires m.kind != Perda && m.quantity > 0
    requires Validate(table, log, m.kind, m.equipment, m.site, m.quantity) == Accepted
    ensures Balanced(table, log + [m], e)
  {
    RecordEffect(log, m, e);
    if m.equipment == e && m.kind == Retorno {
      var s := m.site.value;
      assert SiteNet(log, e, s) >= m.quantity;
      forall t ensures SiteNet(log + [m], e, t) >= 0 {
        assert SiteNet(log, e, t) >= 0;
      }
    }
  }

  /** A 'perda' is accepted whatever the balances, so the loss net can exceed
      the owned quantity and availability then clamps at zero. */
  lemma LossIsUnbounded(row: Equipment, loss: Movement)
    requires row.quantity == 10
    requires loss == Movement(1, Perda, row.id, None, 15, "", "", "")
    ensures Validate([row], [], Perda, row.id, None, 15) == Accepted
    ensures Available([row], [loss], row.id) == 0 && Lost([loss], row.id) == 15
    ensures !Balanced([row], [loss], row.id)
  {
    RecordEffect([], loss, row.id);
    assert [loss] == [] + [loss];
  }

  /** On a balanced ledger the clamps are inactive and the owned quantity
      splits exactly into available, at sites, in maintenance and lost. */
  lemma Conservation(table: seq<Equipment>, log: seq<Movement>, e: int)
    requires Balanced(table, log, e) && Find(table, e).Some?
    ensures Available(table, log, e) + SentNet(log, e) + InMaintenance(log, e) + Lost(log, e) == Find(table, e).value.quantity
  {
  }

  /** The balance each bounded kind is checked against; None for the kinds the
      validator does not bound ('perda', unknown tags, and a 'retorno' with
      no site, which is refused outright). */
  function Bound(table: seq<Equipment>, log: seq<Movement>, kind: Kind, e: int, site: Option<int>): Option<nat> {
    match kind
    case Envio => Some(Available(table, log, e))
    case Manutencao => Some(Available(table, log, e))
    case Retorno => if Given(site) then Some(SentToSite(log, e, site.value)) else None
    case RetornoManutencao => Some(InMaintenance(log, e))
    case RetornoPerda => Some(Lost(log, e))
    case Perda => None
    case Other(_) => None
  }

  /** The validator is a bound check: a bounded kind is accepted exactly when
      q does not exceed its balance, and a rejection ends with that balance
      written in decimal, which reads back as the balance. */
  lemma ValidateIsBoundCheck(table: seq<Equipment>, log: seq<Movement>, kind: Kind, e: int, site: Option<int>, q: int)
    ensures Bound(table, log, kind, e, site).Some? ==>
      (Validate(table, log, kind, e, site, q) == Accepted <==> q <= Bound(table, log, kind, e, site).value)
    ensures Bound(table, log, kind, e, site).None? ==>
      (Validate(table, log, kind, e, site, q) == Accepted <==> kind != Retorno)
    ensures Validate(table, log, kind, e, site, q).Rejected? && Bound(table, log, kind, e, site).Some? ==>
      var reason := Validate(table, log, kind, e, site, q).reason;
      var digits := DecimalString(Bound(table, log, kind, e, site).value);
      && |digits| <= |reason|
      && reason[|reason| - |digits|..] == digits
      && DecimalValue(reason[|reason| - |digits|..]) == Bound(table, log, kind, e, site).value
  {
    var b := Bound(table, log, kind, e, site);
    var v := Validate(table, log, kind, e, site, q);
    if v.Rejected? && b.Some? {
      DecimalRoundTrip(b.value);
      var digits := DecimalString(b.value);
      assert exists prefix :: v.reason == prefix + digits;
      var prefix :| v.reason == prefix + digits;
      assert v.reason[|v.reason| - |digits|..] == digits;
    }
  }

  /** Boundary: sending exactly the available amount is accepted,
      one more is refused with a message naming the available amount. */
  lemma EnvioBoundary(table: seq<Equipment>, log: seq<Movement>, e: int, site: Option<int>)
    ensures Validate(table, log, Envio, e, site, Available(table, log, e)) == Accepted
    ensures Validate(table, log, Envio, e, site, Available(table, log, e) + 1)
      == Rejected(InsufficientAvailable + DecimalString(Available(table, log, e)))
  {
  }
}
