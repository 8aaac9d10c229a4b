/** The books of two copies that merge, with extra stages: exactly when the result balances, and
    how two people get to one that does not. */
module FusionDinero {
  import opened Base
  import opened Precio
  import opened Partidas
  import opened Obras
  import opened Acuerdo
  import opened FusionObras
  import opened FusionLimites
  import opened Dinero
  import opened CorridaDinero

  // ----- when a merge balances

  /** The merge takes count and price from the arriving copy. */
  predicate Toma(s: Obra, o: Obra) {
    || o.estado.Rango() > s.estado.Rango()
    || (o.estado.Rango() == s.estado.Rango() && o.nPartidas > s.nPartidas
        && s.estado != Rechazada && s.estado != Abandonada)
  }

  /** The stages that both copies have. */
  function Comunes(s: Obra, o: Obra): (n: nat)
    ensures n <= |s.partidas| && n <= |o.partidas|
  {
    if |s.partidas| < |o.partidas| then |s.partidas| else |o.partidas|
  }

  /** The same stages have an amount of their own, and the arriving ones were made by actions. */
  predicate MontosAlaPar(s: Obra, o: Obra) {
    && (forall k :: 0 <= k < Comunes(s, o) ==> (s.partidas[k].monto == 0 <==> o.partidas[k].monto == 0))
    && (forall k :: |s.partidas| <= k < |o.partidas| ==> DeAccion(o.partidas[k]))
  }

  lemma FusionMonto(p: Partida, o: Partida)
    requires p.monto == 0 <==> o.monto == 0
    ensures Fusion(p, o).monto == p.monto
  {
  }

  lemma FusionMontoNuevo(o: Partida)
    requires DeAccion(o)
    ensures Fusion(Nueva("", 0), o).monto == o.monto
  {
  }

  lemma {:induction false} SumaJunta(ps: seq<Partida>, qs: seq<Partida>, garantia: u64)
    ensures SumaCapital(ps + qs, garantia) == SumaCapital(ps, garantia) + SumaCapital(qs, garantia)
  {
    if |qs| == 0 {
      assert ps + qs == ps;
    } else {
      assert (ps + qs)[..|ps + qs| - 1] == ps + qs[..|qs| - 1];
      SumaJunta(ps, qs[..|qs| - 1], garantia);
    }
  }

  predicate MismosMontos(p: seq<Partida>, q: seq<Partida>) {
    |p| == |q| && forall j :: 0 <= j < |p| ==> p[j].monto == q[j].monto
  }

  lemma SumaPorTramos(r: seq<Partida>, p: seq<Partida>, q: seq<Partida>, a: seq<Partida>, b: seq<Partida>, g: u64)
    requires r == p + q && MismosMontos(p, a) && MismosMontos(q, b)
    ensures SumaCapital(r, g) == SumaCapital(a, g) + SumaCapital(b, g)
  {
    SumaPorMonto(p, a, g);
    SumaPorMonto(q, b, g);
    SumaJunta(p, q, g);
  }

  lemma MontoFundido(s: Obra, o: Obra, j: nat)
    requires MontosAlaPar(s, o) && j < |o.partidas|
    ensures Fusion(Celda(s.partidas, j), Celda(o.partidas, j)).monto
         == if j < Comunes(s, o) then s.partidas[j].monto else o.partidas[j].monto
  {
    if j < Comunes(s, o) {
      FusionMonto(s.partidas[j], o.partidas[j]);
    } else {
      FusionMontoNuevo(o.partidas[j]);
    }
  }

  /** The stages of a merge hold what the old ones do, and after them what the new ones do. */
  lemma SumaFundida(s: Obra, o: Obra, g: u64)
    requires MontosAlaPar(s, o)
    ensures var k := Comunes(s, o);
      SumaCapital(FusionPartidas(s.partidas, o.partidas, |o.partidas|), g)
        == SumaCapital(s.partidas[..k], g) + SumaCapital(o.partidas[k..], g)
  {
    var k, r := Comunes(s, o), FusionPartidas(s.partidas, o.partidas, |o.partidas|);
    MontosFundidos(s, o, r, k);
    SumaPorTramos(r, r[..k], r[k..], s.partidas[..k], o.partidas[k..], g);
  }

  lemma MontosFundidos(s: Obra, o: Obra, r: seq<Partida>, k: nat)
    requires MontosAlaPar(s, o) && k == Comunes(s, o)
    requires r == FusionPartidas(s.partidas, o.partidas, |o.partidas|)
    ensures r == r[..k] + r[k..] && MismosMontos(r[..k], s.partidas[..k]) && MismosMontos(r[k..], o.partidas[k..])
  {
    forall j | 0 <= j < |r| ensures r[j].monto == if j < k then s.partidas[j].monto else o.partidas[j].monto {
      MontoFundido(s, o, j);
    }
    EnTramos(r, s.partidas, o.partidas, k);
  }

  lemma EnTramos(r: seq<Partida>, a: seq<Partida>, b: seq<Partida>, k: nat)
    requires |r| == |b| && k <= |a| && k <= |b|
    requires forall j :: 0 <= j < |r| ==> r[j].monto == if j < k then a[j].monto else b[j].monto
    ensures r == r[..k] + r[k..] && MismosMontos(r[..k], a[..k]) && MismosMontos(r[k..], b[k..])
  {
  }

  lemma SinTomar(s: Obra, o: Obra)
    requires Cuadra(s) && Contada(o) && MontosAlaPar(s, o) && !Toma(s, o)
    ensures Cuadra(FusionObra(s, o))
  {
    var r := FusionObra(s, o);
    FusionTerminos(s, o);
    FusionHechos(s, o);
    if r.partidas != s.partidas {
      SumaIgual(s, o, r.partidas);
    }
  }

  lemma SumaIgual(s: Obra, o: Obra, ps: seq<Partida>)
    requires MontosAlaPar(s, o) && |s.partidas| == |o.partidas|
    requires ps == FusionPartidas(s.partidas, o.partidas, |o.partidas|)
    ensures |ps| == |s.partidas| && SumaCapital(ps, s.garantia) == SumaCapital(s.partidas, s.garantia)
  {
    SumaFundida(s, o, s.garantia);
    assert s.partidas[..|o.partidas|] == s.partidas && o.partidas[|o.partidas|..] == [];
  }

  lemma AlTomar(s: Obra, o: Obra)
    requires Contada(s) && Cuadra(o) && s.garantia == o.garantia && MontosAlaPar(s, o) && Toma(s, o)
    ensures var k := Comunes(s, o);
      Cuadra(FusionObra(s, o)) <==>
        SumaCapital(s.partidas[..k], s.garantia) == SumaCapital(o.partidas[..k], s.garantia)
  {
    var r := FusionObra(s, o);
    FusionTerminos(s, o);
    FusionHechos(s, o);
    SumaTomada(s, o, r.partidas, Comunes(s, o));
  }

  /** What the merged stages hold differs from what the arriving ones do as the common ones do. */
  lemma SumaTomada(s: Obra, o: Obra, ps: seq<Partida>, k: nat)
    requires MontosAlaPar(s, o) && k == Comunes(s, o)
    requires ps == FusionPartidas(s.partidas, o.partidas, |o.partidas|)
    ensures SumaCapital(ps, s.garantia) - SumaCapital(o.partidas, s.garantia)
         == SumaCapital(s.partidas[..k], s.garantia) - SumaCapital(o.partidas[..k], s.garantia)
  {
    SumaFundida(s, o, s.garantia);
    SumaPartida(o.partidas, k, s.garantia);
  }

  lemma SumaPartida(ps: seq<Partida>, k: nat, g: u64)
    requires k <= |ps|
    ensures SumaCapital(ps, g) == SumaCapital(ps[..k], g) + SumaCapital(ps[k..], g)
  {
    assert ps == ps[..k] + ps[k..];
    SumaJunta(ps[..k], ps[k..], g);
  }

  /** When two balanced copies with the same bond merge into a balanced one: exactly when the
      merge keeps the old count and price, or the stages that both have hold the same in both. */
  lemma FusionCuadraSi(s: Obra, o: Obra)
    requires Cuadra(s) && Cuadra(o) && s.garantia == o.garantia && MontosAlaPar(s, o)
    ensures var k := Comunes(s, o);
      Cuadra(FusionObra(s, o)) <==>
        !Toma(s, o) || SumaCapital(s.partidas[..k], s.garantia) == SumaCapital(o.partidas[..k], s.garantia)
  {
    if Toma(s, o) {
      AlTomar(s, o);
    } else {
      SinTomar(s, o);
    }
  }

  /** With the same count: exactly when the arriving copy is not further along, or has the same
      price. */
  lemma FusionCuadraMismaCuenta(s: Obra, o: Obra)
    requires Cuadra(s) && Cuadra(o) && s.garantia == o.garantia && MontosAlaPar(s, o) && s.nPartidas == o.nPartidas
    ensures Cuadra(FusionObra(s, o)) <==> o.estado.Rango() <= s.estado.Rango() || s.trabajo == o.trabajo
  {
    FusionCuadraSi(s, o);
    assert s.partidas[..|s.partidas|] == s.partidas && o.partidas[..|o.partidas|] == o.partidas;
  }

  // ----- two people, two extra stages

  /** It happens: the principal accepts the contractor's extra stage and proposes another; the
      contractor, who had locked a stage meanwhile, receives that and accepts it. Both copies
      balance; the principal's, once it receives the other, does exactly when the two amounts
      are equal. */
  lemma DosExtrasDescuadran(o: Obra, m: Persona, c: Persona, i: nat, precio: Option<PrecioFijado>,
                            texto: string, b: u64, t: int)
    requires Cuadra(o) && o.estado == Acordada && o.nPartidas < U32_MAX && o.extraSeq < U32_MAX - 2
    requires o.mandante.id == m.id && o.contratista.id == c.id && m.id != c.id
    requires o.extra.Some? && o.extra.value.por.id == c.id && o.extra.value.monto > 0
    requires AceptarExtra(o, m, t).error.None? && o.trabajo + b <= U64_MAX
    requires ProponerExtra(AceptarExtra(o, m, t).obra, m, texto, b, t).error.None?
    requires EncerrarProponer(o, i, c, precio, t).error.None?
    ensures var s := ProponerExtra(AceptarExtra(o, m, t).obra, m, texto, b, t).obra;
      var u := AceptarExtra(FusionObra(EncerrarProponer(o, i, c, precio, t).obra, s), c, t);
      && u.error.None? && Cuadra(s) && Cuadra(u.obra)
      && (Cuadra(FusionObra(s, u.obra)) <==> o.extra.value.monto == b)
  {
    var s := ProponerExtra(AceptarExtra(o, m, t).obra, m, texto, b, t).obra;
    var p := EncerrarProponer(o, i, c, precio, t).obra;
    DelMandante(o, m, texto, b, t, s);
    DelContratista(o, i, c, precio, t, p);
    SoloTraeExtra(p, s);
    AceptaLaOtra(FusionObra(p, s), p, o, c, b, t);
    FundeUnaMas(s, AceptarExtra(FusionObra(p, s), c, t).obra, o, o.extra.value.monto, b);
  }

  lemma FundeUnaMas(s: Obra, u: Obra, o: Obra, a: u64, b: u64)
    requires ConUnaMas(s, o, a, Acordada) && ConUnaMas(u, o, b, EnMarcha) && Cuadra(s) && Cuadra(u) && a > 0 && b > 0
    ensures Cuadra(FusionObra(s, u)) <==> a == b
  {
    FusionCuadraMismaCuenta(s, u);
  }

  /** A copy of `o` with one more stage of amount `a`. */
  predicate ConUnaMas(r: Obra, o: Obra, a: u64, estado: EstadoObra) {
    && r.estado == estado && r.garantia == o.garantia && r.nPartidas == o.nPartidas + 1
    && r.trabajo == o.trabajo + a && |r.partidas| == |o.partidas| + 1
    && (forall k :: 0 <= k < |o.partidas| ==> r.partidas[k].monto == o.partidas[k].monto)
    && r.partidas[|o.partidas|].monto == a
  }

  lemma UnaMasCuadra(r: Obra, o: Obra, a: u64, estado: EstadoObra)
    requires Cuadra(o) && ConUnaMas(r, o, a, estado) && a > 0
    ensures Cuadra(r)
  {
    SumaPorMonto(o.partidas, r.partidas[..|r.partidas| - 1], o.garantia);
  }

  lemma DelMandante(o: Obra, m: Persona, texto: string, b: u64, t: int, s: Obra)
    requires Cuadra(o) && o.estado == Acordada && o.nPartidas < U32_MAX && o.extraSeq < U32_MAX - 2
    requires o.extra.Some? && o.extra.value.monto > 0 && AceptarExtra(o, m, t).error.None?
    requires ProponerExtra(AceptarExtra(o, m, t).obra, m, texto, b, t).error.None?
    requires s == ProponerExtra(AceptarExtra(o, m, t).obra, m, texto, b, t).obra
    ensures ConUnaMas(s, o, o.extra.value.monto, Acordada) && Cuadra(s) && b > 0
    ensures s.extra.Some? && s.extra.value.por == m && s.extra.value.monto == b && s.extraSeq == o.extraSeq + 2
  {
    UnaMasCuadra(s, o, o.extra.value.monto, Acordada);
  }

  lemma DelContratista(o: Obra, i: nat, c: Persona, precio: Option<PrecioFijado>, t: int, p: Obra)
    requires EncerrarProponer(o, i, c, precio, t).error.None? && p == EncerrarProponer(o, i, c, precio, t).obra
    ensures p.estado == EnMarcha && p.garantia == o.garantia && p.trabajo == o.trabajo && p.nPartidas == o.nPartidas
    ensures p.extraSeq == o.extraSeq && p.mandante == o.mandante && p.contratista == o.contratista
    ensures |p.partidas| == |o.partidas|
    ensures forall k :: 0 <= k < |o.partidas| ==> p.partidas[k].monto == o.partidas[k].monto
    ensures i < |p.partidas| && p.partidas[i].estado.Encerrando?
  {
  }

  /** A copy that is behind and counts more stages brings its newer extra and nothing else. */
  lemma SoloTraeExtra(p: Obra, s: Obra)
    requires p.estado == EnMarcha && s.estado == Acordada && s.nPartidas > p.nPartidas && s.extraSeq > p.extraSeq
    requires exists k :: 0 <= k < |p.partidas| && p.partidas[k].estado.Encerrando?
    ensures var q := FusionObra(p, s);
      && q.estado == EnMarcha && MismosTerminos(q, p) && q.partidas == p.partidas && q.extra == s.extra
      && q.mandante.id == p.mandante.id && q.contratista.id == p.contratista.id
  {
    var k :| 0 <= k < |p.partidas| && p.partidas[k].estado.Encerrando?;
    assert p.partidas[k] in p.partidas && !p.TodasPagadas();
    FusionTerminos(p, s);
    FusionHechos(p, s);
    var d := FusionCuerpo(FusionClaves(p, s), s);
    CuerpoHechos(FusionClaves(p, s), s);
    assert FusionExtra(d, s).extra == s.extra && FusionExtra(d, s).estado == EnMarcha;
    assert FusionCierre(FusionExtra(d, s), s).extra == s.extra;
    EstadoHechos(FusionCierre(FusionExtra(d, s), s), s);
  }

  lemma AceptaLaOtra(q: Obra, p: Obra, o: Obra, c: Persona, b: u64, t: int)
    requires Cuadra(o) && o.nPartidas < U32_MAX && o.trabajo + b <= U64_MAX && b > 0
    requires q.estado == EnMarcha && MismosTerminos(q, p) && q.partidas == p.partidas && q.contratista.id == c.id
    requires p.garantia == o.garantia && p.trabajo == o.trabajo && p.nPartidas == o.nPartidas
    requires |p.partidas| == |o.partidas|
    requires forall k :: 0 <= k < |o.partidas| ==> p.partidas[k].monto == o.partidas[k].monto
    requires q.extra.Some? && q.extra.value.por.id != c.id && q.extra.value.monto == b
    ensures var u := AceptarExtra(q, c, t);
      u.error.None? && ConUnaMas(u.obra, o, b, EnMarcha) && Cuadra(u.obra)
  {
    UnaMasCuadra(AceptarExtra(q, c, t).obra, o, b, EnMarcha);
  }
}
