/** What the merge of two copies of a job guarantees, for all copies. */
module FusionObras {
  import opened Base
  import opened Precio
  import opened Partidas
  import opened FusionPartida
  import opened Obras
  import Acuerdo

  function FusionEnOrden(o: Obra, otras: seq<Obra>): Obra
    decreases |otras|
  {
    if |otras| == 0 then o else FusionEnOrden(FusionObra(o, otras[0]), otras[1..])
  }

  predicate Contada(o: Obra) {
    |o.partidas| == o.nPartidas
  }

  // ----- phase by phase

  /** The parts of a job that the phases of a merge leave alone or move only forward. */
  predicate Marco(s: Obra, r: Obra) {
    && r.mandante.id == s.mandante.id && r.contratista.id == s.contratista.id && r.moneda == s.moneda
  }

  lemma CuerpoHechos(s: Obra, o: Obra)
    ensures var r := FusionCuerpo(s, o);
      && Marco(s, r)
      && r.estado == (if o.estado.Rango() > s.estado.Rango() then o.estado else s.estado)
      && r.extra == s.extra && r.extraSeq == s.extraSeq && r.cierre == s.cierre && r.cierreSeq == s.cierreSeq
      && (r.contra == s.contra || (r.contra == o.contra && o.estado.Rango() >= s.estado.Rango()))
      && (r.nPartidas == if o.estado.Rango() > s.estado.Rango() then o.nPartidas else s.nPartidas)
      && (r.partidas == if o.estado.Rango() > s.estado.Rango() || o.nPartidas == s.nPartidas
                        then FusionPartidas(s.partidas, o.partidas, r.nPartidas) else s.partidas)
  {
  }

  lemma ExtraHechos(s: Obra, o: Obra)
    ensures var r := FusionExtra(s, o);
      && Marco(s, r)
      && r.estado == s.estado && r.contra == s.contra && r.cierre == s.cierre && r.cierreSeq == s.cierreSeq
      && r.extraSeq == Max(s.extraSeq, o.extraSeq)
      && (s.extra.None? && o.extraSeq <= s.extraSeq ==> r.extra.None?)
      && (r.nPartidas == if CreceCon(s, o) then o.nPartidas else s.nPartidas)
      && (r.partidas == if CreceCon(s, o) then FusionPartidas(s.partidas, o.partidas, o.nPartidas) else s.partidas)
  {
  }

  lemma CierreHechos(s: Obra, o: Obra)
    ensures var r := FusionCierre(s, o);
      && Marco(s, r)
      && r.estado == s.estado && r.contra == s.contra && r.extraSeq == s.extraSeq
      && r.partidas == s.partidas && r.nPartidas == s.nPartidas
      && r.cierreSeq == Max(s.cierreSeq, o.cierreSeq)
      && (s.extra.None? ==> r.extra.None?)
      && (s.cierre.None? && o.cierreSeq <= s.cierreSeq ==> r.cierre.None?)
  {
  }

  lemma EstadoHechos(s: Obra, o: Obra)
    ensures var r := FusionEstado(s, o);
      && Marco(s, r)
      && r.estado.Rango() >= s.estado.Rango()
      && (r.estado == Cerrada <==> s.estado == Cerrada || (s.TodasPagadas() && |s.partidas| > 0))
      && (r.estado == s.estado || r.estado == Cerrada || (r.estado == EnMarcha && s.HayRiesgo()
            && s.estado != Rechazada && s.estado != Abandonada))
      && r.extra == s.extra && r.extraSeq == s.extraSeq && r.cierre == s.cierre && r.cierreSeq == s.cierreSeq
      && r.contra == s.contra && r.partidas == s.partidas && r.nPartidas == s.nPartidas
  {
  }

  /** The whole merge at once: whose stages and count survive, and what moves forward. */
  predicate Hechos(s: Obra, o: Obra, r: Obra) {
    var mas := o.estado.Rango() > s.estado.Rango();
    var n := if mas || (o.estado.Rango() == s.estado.Rango() && o.nPartidas > s.nPartidas
                        && s.estado != Rechazada && s.estado != Abandonada)
             then o.nPartidas else s.nPartidas;
    && r.mandante.id == s.mandante.id && r.contratista.id == s.contratista.id
    && r.nPartidas == n
    && (r.contra == s.contra || r.contra == o.contra)
    && (r.estado == Cerrada <==> (if mas then o.estado else s.estado) == Cerrada
                                 || (r.TodasPagadas() && |r.partidas| > 0))
    && (r.estado == (if mas then o.estado else s.estado) || r.estado == Cerrada
        || (r.estado == EnMarcha && r.HayRiesgo() && (if mas then o.estado else s.estado) != Rechazada))
    && (r.partidas == if mas || n == o.nPartidas then FusionPartidas(s.partidas, o.partidas, n) else s.partidas)
  }

  lemma FusionHechos(s: Obra, o: Obra)
    ensures Hechos(s, o, FusionObra(s, o))
  {
    var a := FusionClaves(s, o);
    var c := FusionCuerpo(a, o);
    CuerpoHechos(a, o);
    var e := FusionExtra(c, o);
    ExtraHechos(c, o);
    assert !CreceCon(c, o) || c.partidas == s.partidas;
    CierreHechos(e, o);
    EstadoHechos(FusionCierre(e, o), o);
  }

  // ----- stage by stage

  /** Every stage of the merged job is the old stage, or the merge of the two stages at its
      place; a stage list that is shorter than the result counts as ending in fresh stages. */
  lemma FusionPorPartida(s: Obra, o: Obra)
    requires Contada(s) && Contada(o)
    ensures var r := FusionObra(s, o);
      && Contada(r)
      && (r.partidas == s.partidas || r.partidas == FusionPartidas(s.partidas, o.partidas, r.nPartidas))
      && (r.nPartidas == s.nPartidas || (r.nPartidas == o.nPartidas && o.estado.Rango() >= s.estado.Rango()))
      && (o.nPartidas == s.nPartidas ==> r.partidas == FusionPartidas(s.partidas, o.partidas, s.nPartidas))
      && (o.estado.Rango() > s.estado.Rango() ==> r.partidas == FusionPartidas(s.partidas, o.partidas, o.nPartidas))
  {
    FusionHechos(s, o);
  }

  // ----- nothing goes back

  lemma FusionObraNoRetrocede(s: Obra, o: Obra)
    ensures var r := FusionObra(s, o);
      && r.estado.Rango() >= s.estado.Rango() && r.estado.Rango() >= o.estado.Rango()
      && r.extraSeq == Max(s.extraSeq, o.extraSeq) && r.cierreSeq == Max(s.cierreSeq, o.cierreSeq)
      && (s.extra.None? && o.extraSeq <= s.extraSeq ==> r.extra.None?)
      && (s.cierre.None? && o.cierreSeq <= s.cierreSeq ==> r.cierre.None?)
      && (s.moneda.Usd? || o.moneda.Usd? <==> r.moneda.Usd?)
  {
    var a := FusionClaves(s, o);
    CuerpoHechos(a, o);
    ExtraHechos(FusionCuerpo(a, o), o);
    CierreHechos(FusionExtra(FusionCuerpo(a, o), o), o);
    EstadoHechos(FusionCierre(FusionExtra(FusionCuerpo(a, o), o), o), o);
  }

  /** A refused extra stage or a refused closing stays refused: no list of deliveries that
      is not newer than the refusal brings it back, and no list takes a job back. */
  lemma {:induction false} LoRechazadoNoVuelve(s: Obra, otras: seq<Obra>)
    ensures FusionEnOrden(s, otras).estado.Rango() >= s.estado.Rango()
    ensures forall k :: 0 <= k < |otras| ==> FusionEnOrden(s, otras).estado.Rango() >= otras[k].estado.Rango()
    ensures s.extra.None? && (forall k :: 0 <= k < |otras| ==> otras[k].extraSeq <= s.extraSeq) ==>
      FusionEnOrden(s, otras).extra.None? && FusionEnOrden(s, otras).extraSeq == s.extraSeq
    ensures s.cierre.None? && (forall k :: 0 <= k < |otras| ==> otras[k].cierreSeq <= s.cierreSeq) ==>
      FusionEnOrden(s, otras).cierre.None? && FusionEnOrden(s, otras).cierreSeq == s.cierreSeq
    decreases |otras|
  {
    if |otras| == 0 {
    } else {
      FusionObraNoRetrocede(s, otras[0]);
      LoRechazadoNoVuelve(FusionObra(s, otras[0]), otras[1..]);
      assert forall k :: 1 <= k < |otras| ==> otras[k] == otras[1..][k - 1];
    }
  }

  // ----- closing is exact

  /** The job is closed exactly when it has stages and all of them are paid. */
  predicate CierreExacto(o: Obra) {
    Contada(o) && (o.estado == Cerrada <==> |o.partidas| > 0 && o.TodasPagadas())
  }

  lemma FusionDePagadas(dst: seq<Partida>, src: seq<Partida>, n: nat)
    ensures |dst| == n && (forall p <- dst :: p.estado.Pagada?) ==>
      forall p <- FusionPartidas(dst, src, n) :: p.estado.Pagada?
    ensures |src| == n && (forall p <- src :: p.estado.Pagada?) ==>
      forall p <- FusionPartidas(dst, src, n) :: p.estado.Pagada?
  {
    var r := FusionPartidas(dst, src, n);
    forall k | 0 <= k < n
      ensures |dst| == n && dst[k].estado.Pagada? ==> r[k].estado.Pagada?
      ensures |src| == n && src[k].estado.Pagada? ==> r[k].estado.Pagada?
    {
      FusionNoRetrocede(Celda(dst, k), Celda(src, k));
    }
  }

  /** The same but for one thing: a job with every stage paid may have been abandoned too. */
  predicate CasiExacto(o: Obra) {
    && Contada(o)
    && (o.estado == Cerrada ==> |o.partidas| > 0 && o.TodasPagadas())
    && (|o.partidas| > 0 && o.TodasPagadas() ==> o.estado == Cerrada || o.estado == Abandonada)
  }

  /** A merge needs less than it gives: two copies that close almost exactly make one that
      closes exactly. */
  lemma FusionDejaCierreExacto(s: Obra, o: Obra)
    requires CasiExacto(s) && CasiExacto(o)
    ensures CierreExacto(FusionObra(s, o))
  {
    FusionHechos(s, o);
    HechosDejanCierre(s, o, FusionObra(s, o));
  }

  lemma HechosDejanCierre(s: Obra, o: Obra, r: Obra)
    requires CasiExacto(s) && CasiExacto(o) && Hechos(s, o, r)
    ensures CierreExacto(r)
  {
    if s.estado == Cerrada {
      CerradaQueda(s, o, r);
    } else if o.estado == Cerrada {
      CerradaLlega(s, o, r);
    }
  }

  /** A closed copy stays all paid, and a delivered closed copy brings its paid stages. */
  lemma CerradaQueda(s: Obra, o: Obra, r: Obra)
    requires CasiExacto(s) && s.estado == Cerrada && CasiExacto(o) && Hechos(s, o, r)
    ensures |r.partidas| == r.nPartidas > 0 && r.TodasPagadas()
  {
    FusionDePagadas(s.partidas, o.partidas, r.nPartidas);
  }

  lemma CerradaLlega(s: Obra, o: Obra, r: Obra)
    requires CasiExacto(o) && o.estado == Cerrada && Contada(s) && s.estado != Cerrada && Hechos(s, o, r)
    ensures |r.partidas| == r.nPartidas > 0 && r.TodasPagadas()
  {
    FusionDePagadas(s.partidas, o.partidas, r.nPartidas);
  }

  lemma {:induction false} CierreExactoBajoChisme(s: Obra, otras: seq<Obra>)
    requires CasiExacto(s) && forall k :: 0 <= k < |otras| ==> CasiExacto(otras[k])
    ensures |otras| > 0 || CierreExacto(s) ==> CierreExacto(FusionEnOrden(s, otras))
    decreases |otras|
  {
    if |otras| == 0 {
    } else {
      FusionDejaCierreExacto(s, otras[0]);
      CierreExactoBajoChisme(FusionObra(s, otras[0]), otras[1..]);
    }
  }

  // ----- crossed proposals fix one price

  lemma MenorAsimetrico(a: string, b: string)
    requires Menor(a, b)
    ensures !Menor(b, a)
  {
    if Menor(b, a) {
      MenorTransitivo(a, b, a);
      MenorIrreflexivo(a);
    }
  }

  /** Of two crossed proposals, the one that survives. */
  function Ganadora(x: Partida, y: Partida): Partida
    requires x.encerradoPor.Some? && y.encerradoPor.Some?
  {
    if Menor(y.encerradoPor.value.id, x.encerradoPor.value.id) then y else x
  }

  lemma GanadoraConmuta(x: Partida, y: Partida, s: u32)
    requires Cruzadas({x, y}, s)
    ensures Propuesta(x, s) && Propuesta(y, s) && MismaPropuesta(Ganadora(x, y), Ganadora(y, x))
  {
    assert x in {x, y} && y in {x, y};
    var p, q := x.encerradoPor.value.id, y.encerradoPor.value.id;
    MenorTotal(p, q);
    if Menor(p, q) {
      MenorAsimetrico(p, q);
    }
  }

  lemma CruceEnUnaCopia(a: Obra, b: Obra, i: nat, s: u32)
    requires Contada(a) && Contada(b) && a.nPartidas == b.nPartidas && i < a.nPartidas
    requires Propuesta(a.partidas[i], s) && Propuesta(b.partidas[i], s)
    ensures Contada(FusionObra(a, b)) && FusionObra(a, b).nPartidas == a.nPartidas
    ensures MismaPropuesta(FusionObra(a, b).partidas[i], Ganadora(a.partidas[i], b.partidas[i]))
  {
    FusionPorPartida(a, b);
    FusionDePropuestas(a.partidas[i], b.partidas[i], s);
  }

  /** Two devices of a dollar job proposed to lock the same stage at the same time, each
      with its own price. After exchanging copies they use the same piconero: the one of the
      proposer with the smaller identifier. */
  lemma CruceDejaUnSoloPrecio(a: Obra, b: Obra, i: nat, s: u32)
    requires Contada(a) && Contada(b) && a.nPartidas == b.nPartidas && i < a.nPartidas
    requires a.moneda.Usd? && b.moneda.Usd?
    requires Cruzadas({a.partidas[i], b.partidas[i]}, s)
    requires a.partidas[i].precio.value.Coherente() && b.partidas[i].precio.value.Coherente()
    ensures PiconeroPartida(FusionObra(a, b), i)
         == PiconeroPartida(FusionObra(b, a), i)
         == Some(Ganadora(a.partidas[i], b.partidas[i]).precio.value.piconero)
    ensures Contada(FusionObra(a, b)) && FusionObra(a, b).nPartidas == a.nPartidas
    ensures Contada(FusionObra(b, a)) && FusionObra(b, a).nPartidas == a.nPartidas
    ensures MismaPropuesta(FusionObra(a, b).partidas[i], FusionObra(b, a).partidas[i])
  {
    GanadoraConmuta(a.partidas[i], b.partidas[i], s);
    CruceEnUnaCopia(a, b, i, s);
    CruceEnUnaCopia(b, a, i, s);
    FusionObraNoRetrocede(a, b);
    FusionObraNoRetrocede(b, a);
    PrecioFijaElPiconero(FusionObra(a, b), i);
    PrecioFijaElPiconero(FusionObra(b, a), i);
  }

  /** So two people who propose the same stage of one job at the same time end with one
      price, whichever copy arrives where: that of the smaller identifier. */
  lemma ProponerALaVez(o: Obra, i: nat, m: Persona, c: Persona,
                       pm: Option<PrecioFijado>, pc: Option<PrecioFijado>, tm: int, tc: int)
    requires Contada(o) && o.moneda.Usd? && m.id != c.id
    requires Acuerdo.EncerrarProponer(o, i, m, pm, tm).error.None?
    requires Acuerdo.EncerrarProponer(o, i, c, pc, tc).error.None?
    ensures pm.Some? && pc.Some?
    ensures var a, b := Acuerdo.EncerrarProponer(o, i, m, pm, tm).obra, Acuerdo.EncerrarProponer(o, i, c, pc, tc).obra;
      PiconeroPartida(FusionObra(a, b), i) == PiconeroPartida(FusionObra(b, a), i)
        == Some(if Menor(c.id, m.id) then pc.value.piconero else pm.value.piconero)
  {
    var a, b := Acuerdo.EncerrarProponer(o, i, m, pm, tm).obra, Acuerdo.EncerrarProponer(o, i, c, pc, tc).obra;
    CruceDejaUnSoloPrecio(a, b, i, SumaUno(o.partidas[i].encerrarSeq));
  }

  lemma PrecioFijaElPiconero(o: Obra, i: nat)
    requires i < |o.partidas| && o.moneda.Usd?
    requires o.partidas[i].precio.Some? && o.partidas[i].precio.value.Coherente()
    ensures PiconeroPartida(o, i) == Some(o.partidas[i].precio.value.piconero)
  {
  }
}
