/** What the merge of two copies of a stage guarantees, for all copies. */
module FusionPartida {
  import opened Base
  import opened Partidas

  /** Merging a whole list of deliveries, in the order in which they arrive. */
  function FusionTodas(p: Partida, otras: seq<Partida>): Partida
    decreases |otras|
  {
    if |otras| == 0 then p else FusionTodas(Fusion(p, otras[0]), otras[1..])
  }

  // ----- a merge never rolls a stage back

  /** `q` is not behind `p`. Below EnTrato the lock sequence number counts first and the
      state second; from EnTrato on only the state counts. */
  predicate NoRetrocede(p: Partida, q: Partida) {
    if p.estado.Rango() >= EN_TRATO then q.estado.Rango() >= p.estado.Rango()
    else
      || q.estado.Rango() >= EN_TRATO
      || q.encerrarSeq > p.encerrarSeq
      || (q.encerrarSeq == p.encerrarSeq && q.estado.Rango() >= p.estado.Rango())
  }

  /** The price of a stage with notes or a payment does not move, and neither does a
      transaction id once it was seen. */
  predicate ConservaFijado(p: Partida, q: Partida) {
    && (p.estado.Rango() >= EN_TRATO && p.precio.Some? ==> q.precio == p.precio)
    && (p.fondeoTxid.Some? ==> q.fondeoTxid == p.fondeoTxid)
    && (p.pagoTxid.Some? ==> q.pagoTxid == p.pagoTxid)
    && (p.monto > 0 ==> q.monto == p.monto)
  }

  lemma FusionNoRetrocede(p: Partida, o: Partida)
    ensures NoRetrocede(p, Fusion(p, o)) && ConservaFijado(p, Fusion(p, o))
    ensures Fusion(p, o).encerrarSeq == Max(p.encerrarSeq, o.encerrarSeq)
    ensures Fusion(p, o).estado.Rango() >= Min(p.estado.Rango(), o.estado.Rango())
    ensures o.estado.Rango() >= EN_TRATO ==> Fusion(p, o).estado.Rango() >= o.estado.Rango()
    ensures |Fusion(p, o).notas| >= |p.notas|
  {
    var p' := p.(detalle := if p.detalle == "" then o.detalle else p.detalle);
    FaseSeqFija(p', o);
    FaseDosFija(FaseSeq(p', o), o, Fusion(p, o));
  }

  /** The first phase moves a stage only before any note. */
  lemma FaseSeqFija(p: Partida, o: Partida)
    ensures var q := FaseSeq(p, o);
      && NoRetrocede(p, q) && ConservaFijado(p, q) && q.notas == p.notas
      && q.encerrarSeq == Max(p.encerrarSeq, o.encerrarSeq)
      && (q.estado == p.estado || (q.estado == o.estado && p.estado.Rango() < EN_TRATO))
  {
  }

  /** The second phase only adds to what the stage has. */
  lemma FaseDosFija(q: Partida, o: Partida, r: Partida)
    requires r == if o.estado.Rango() > q.estado.Rango() then FaseAdelante(q, o)
                  else FaseFinal(if o.estado == q.estado then FaseMismoEstado(q, o) else q, o)
    ensures r.estado == (if o.estado.Rango() > q.estado.Rango() then o.estado else q.estado)
    ensures r.encerrarSeq == q.encerrarSeq && |r.notas| >= |q.notas|
    ensures q.precio.Some? ==> r.precio == q.precio
    ensures q.fondeoTxid.Some? ==> r.fondeoTxid == q.fondeoTxid
    ensures q.pagoTxid.Some? ==> r.pagoTxid == q.pagoTxid
    ensures q.monto > 0 ==> r.monto == q.monto
  {
  }

  /** No list of deliveries, however stale, repeated or reordered, takes anything back. */
  lemma {:induction false} NingunaEntregaRetrocede(p: Partida, otras: seq<Partida>)
    ensures NoRetrocede(p, FusionTodas(p, otras)) && ConservaFijado(p, FusionTodas(p, otras))
    ensures forall k :: 0 <= k < |otras| ==> FusionTodas(p, otras).encerrarSeq >= otras[k].encerrarSeq
    ensures FusionTodas(p, otras).encerrarSeq == p.encerrarSeq
         || exists k :: 0 <= k < |otras| && FusionTodas(p, otras).encerrarSeq == otras[k].encerrarSeq
    ensures |FusionTodas(p, otras).notas| >= |p.notas|
    decreases |otras|
  {
    if |otras| == 0 {
    } else {
      var q := Fusion(p, otras[0]);
      FusionNoRetrocede(p, otras[0]);
      NingunaEntregaRetrocede(q, otras[1..]);
      NingunaEntregaSeq(q, otras[1..]);
      var r := FusionTodas(q, otras[1..]);
      assert r == FusionTodas(p, otras);
      assert forall k :: 1 <= k < |otras| ==> otras[k] == otras[1..][k - 1];
      if r.encerrarSeq != q.encerrarSeq {
        var k :| 0 <= k < |otras[1..]| && r.encerrarSeq == otras[1..][k].encerrarSeq;
        assert r.encerrarSeq == otras[k + 1].encerrarSeq;
      }
    }
  }

  lemma {:induction false} NingunaEntregaSeq(p: Partida, otras: seq<Partida>)
    ensures FusionTodas(p, otras).encerrarSeq >= p.encerrarSeq
    decreases |otras|
  {
    if |otras| == 0 {
    } else {
      FusionNoRetrocede(p, otras[0]);
      NingunaEntregaSeq(Fusion(p, otras[0]), otras[1..]);
    }
  }

  // ----- redelivery reaches a fixed point

  /** `q` already holds everything of `o` except what `Repetida` still fills in. */
  predicate CasiAbsorbida(q: Partida, o: Partida) {
    && (q.detalle == "" ==> o.detalle == "")
    && o.encerrarSeq <= q.encerrarSeq && o.estado.Rango() <= q.estado.Rango()
    && (q.encerrarSeq == o.encerrarSeq && q.estado.Encerrando? && o.estado.Encerrando? ==>
          && !GanaOtra(q.encerradoPor, o.encerradoPor)
          && (q.precio.None? && o.encerradoPor == q.encerradoPor ==> o.precio.None?))
    && (o.estado == q.estado ==>
          && |o.notas| <= |q.notas|
          && (q.pago.None? ==> o.pago.None?)
          && (q.encerradoPor.None? ==> o.encerradoPor.None?)
          && (q.recibo.None? ==> o.recibo.None?)
          && (q.precio.None? && !q.estado.Pendiente? ==> o.precio.None?))
    && (q.estado.Pendiente? && o.estado.Pendiente? && o.detalle != "" ==> q.detalle == o.detalle)
    && (q.fondeoTxid.None? ==> o.fondeoTxid.None?)
    && (q.pagoTxid.None? ==> o.pagoTxid.None?)
    && Elevadas(q.notas, o.notas) == q.notas
  }

  lemma ElevadasEstables(a: seq<Nota>, b: seq<Nota>)
    ensures Elevadas(Elevadas(a, b), b) == Elevadas(a, b)
  {
  }

  lemma EntregaCasiAbsorbe(p: Partida, o: Partida)
    ensures CasiAbsorbida(Fusion(p, o), o)
  {
    var q := FaseSeq(p.(detalle := if p.detalle == "" then o.detalle else p.detalle), o);
    SeqAbsorbe(p.(detalle := if p.detalle == "" then o.detalle else p.detalle), o);
    if o.estado.Rango() > q.estado.Rango() {
      AdelantarAbsorbe(q, o);
    } else if o.estado == q.estado {
      MismoEstadoAbsorbe(q, o);
    } else {
      ElevadasEstables(q.notas, o.notas);
    }
  }

  /** What the first phase leaves settled. */
  predicate SeqAbsorbida(q: Partida, o: Partida) {
    && (q.detalle == "" ==> o.detalle == "")
    && o.encerrarSeq <= q.encerrarSeq
    && (q.encerrarSeq == o.encerrarSeq && q.estado.Encerrando? && o.estado.Encerrando? ==>
          && !GanaOtra(q.encerradoPor, o.encerradoPor)
          && (q.precio.None? && o.encerradoPor == q.encerradoPor ==> o.precio.None?))
  }

  lemma SeqAbsorbe(p: Partida, o: Partida)
    requires p.detalle == "" ==> o.detalle == ""
    ensures SeqAbsorbida(FaseSeq(p, o), o)
  {
    if o.encerradoPor.Some? {
      MenorIrreflexivo(o.encerradoPor.value.id);
    }
  }

  lemma AdelantarAbsorbe(q: Partida, o: Partida)
    requires SeqAbsorbida(q, o) && o.estado.Rango() > q.estado.Rango()
    ensures CasiAbsorbida(FaseAdelante(q, o), o)
  {
    if o.encerradoPor.Some? {
      MenorIrreflexivo(o.encerradoPor.value.id);
    }
    ElevadasEstables(if |o.notas| >= |q.notas| then Restauradas(o.notas, q.notas) else q.notas, o.notas);
  }

  lemma MismoEstadoAbsorbe(q: Partida, o: Partida)
    requires SeqAbsorbida(q, o) && o.estado == q.estado
    ensures CasiAbsorbida(FaseFinal(FaseMismoEstado(q, o), o), o)
  {
    if o.encerradoPor.Some? {
      MenorIrreflexivo(o.encerradoPor.value.id);
    }
    ElevadasEstables(FaseMismoEstado(q, o).notas, o.notas);
  }

  /** All that a repeated delivery can still change: the amount, the turn of a paid stage,
      and the lock time when nobody is known to have proposed the lock. */
  function Repetida(q: Partida, o: Partida): Partida {
    q.(monto := if q.monto == 0 then o.monto else q.monto,
       turno := if q.estado.Pagada? then None else q.turno,
       encerradoCuando :=
         if o.estado == q.estado && q.encerradoPor.None? then o.encerradoCuando else q.encerradoCuando)
  }

  /** A second delivery of a copy changes at most those three fields, and from the third
      on no field changes at all. */
  lemma ReentregaEsEstable(p: Partida, o: Partida)
    ensures Fusion(Fusion(p, o), o) == Repetida(Fusion(p, o), o)
    ensures var q := Fusion(Fusion(p, o), o); Fusion(q, o) == q
  {
    EntregaCasiAbsorbe(p, o);
    AbsorbidaCasiNoCambia(Fusion(p, o), o);
    AbsorbidaCasiNoCambia(Fusion(Fusion(p, o), o), o);
  }

  lemma AbsorbidaCasiNoCambia(q: Partida, o: Partida)
    requires CasiAbsorbida(q, o)
    ensures Fusion(q, o) == Repetida(q, o)
    ensures CasiAbsorbida(Fusion(q, o), o)
  {
    var q1 := q.(detalle := if q.detalle == "" then o.detalle else q.detalle);
    assert FaseSeq(q1, o) == q1;
  }

  // ----- crossed lock proposals converge

  function Elementos<T>(s: seq<T>): set<T> {
    set c | c in s
  }

  /** A lock proposal with number `s`, its proposer and its price. */
  predicate Propuesta(c: Partida, s: u32) {
    c.estado.Encerrando? && c.encerrarSeq == s && c.encerradoPor.Some? && c.precio.Some?
  }

  predicate MismaPropuesta(a: Partida, b: Partida) {
    a.encerradoPor == b.encerradoPor && a.encerradoCuando == b.encerradoCuando && a.precio == b.precio
  }

  /** Proposals with number `s` in which one person made only one proposal. */
  predicate Cruzadas(cs: set<Partida>, s: u32) {
    && (forall c <- cs :: Propuesta(c, s))
    && (forall a <- cs, b <- cs :: a.encerradoPor.value.id == b.encerradoPor.value.id ==> MismaPropuesta(a, b))
  }

  predicate GanaEn(r: Partida, cs: set<Partida>, s: u32)
    requires Cruzadas(cs, s)
  {
    && Propuesta(r, s)
    && (exists c <- cs :: MismaPropuesta(r, c))
    && (forall c <- cs :: !Menor(c.encerradoPor.value.id, r.encerradoPor.value.id))
  }

  lemma FusionDePropuestas(p: Partida, o: Partida, s: u32)
    requires Propuesta(p, s) && Propuesta(o, s)
    ensures Propuesta(Fusion(p, o), s)
    ensures MismaPropuesta(Fusion(p, o), if Menor(o.encerradoPor.value.id, p.encerradoPor.value.id) then o else p)
  {
  }

  /** One more proposal: the winner is still one of those seen, and the smallest. */
  lemma GanaConUnaMas(p: Partida, vistas: set<Partida>, o: Partida, s: u32)
    requires Cruzadas(vistas + {o}, s) && GanaEn(p, vistas, s)
    ensures GanaEn(Fusion(p, o), vistas + {o}, s)
  {
    FusionDePropuestas(p, o, s);
    var q := Fusion(p, o);
    var b, d := o.encerradoPor.value.id, p.encerradoPor.value.id;
    if Menor(b, d) {
      MenorIrreflexivo(b);
      assert MismaPropuesta(q, o);
      forall c <- vistas ensures !Menor(c.encerradoPor.value.id, b) {
        if Menor(c.encerradoPor.value.id, b) {
          MenorTransitivo(c.encerradoPor.value.id, b, d);
        }
      }
    } else {
      var w :| w in vistas && MismaPropuesta(p, w);
      assert w in vistas + {o} && MismaPropuesta(q, w);
    }
  }

  lemma {:induction false} CruzadasConvergenAlMenor(p: Partida, vistas: set<Partida>, otras: seq<Partida>, s: u32)
    requires Cruzadas(vistas + Elementos(otras), s)
    requires GanaEn(p, vistas, s)
    ensures GanaEn(FusionTodas(p, otras), vistas + Elementos(otras), s)
    decreases |otras|
  {
    if |otras| == 0 {
      assert vistas + Elementos(otras) == vistas;
    } else {
      assert otras == [otras[0]] + otras[1..];
      assert vistas + {otras[0]} + Elementos(otras[1..]) == vistas + Elementos(otras);
      GanaConUnaMas(p, vistas, otras[0], s);
      CruzadasConvergenAlMenor(Fusion(p, otras[0]), vistas + {otras[0]}, otras[1..], s);
    }
  }

  lemma GanadorUnico(a: Partida, b: Partida, cs: set<Partida>, s: u32)
    requires Cruzadas(cs, s) && GanaEn(a, cs, s) && GanaEn(b, cs, s)
    ensures MismaPropuesta(a, b)
  {
    MenorTotal(a.encerradoPor.value.id, b.encerradoPor.value.id);
  }

  /** Whatever copy a device starts from and in whatever order and number the crossed
      proposals reach it, the surviving proposer, time and price are those of the smallest
      identifier; so any two devices that saw the same proposals agree. */
  lemma PropuestasCruzadasConvergen(p: Partida, pOtras: seq<Partida>, q: Partida, qOtras: seq<Partida>, s: u32)
    requires {p} + Elementos(pOtras) == {q} + Elementos(qOtras)
    requires Cruzadas({p} + Elementos(pOtras), s)
    ensures MismaPropuesta(FusionTodas(p, pOtras), FusionTodas(q, qOtras))
    ensures GanaEn(FusionTodas(p, pOtras), {p} + Elementos(pOtras), s)
  {
    MenorIrreflexivo(p.encerradoPor.value.id);
    MenorIrreflexivo(q.encerradoPor.value.id);
    CruzadasConvergenAlMenor(p, {p}, pOtras, s);
    CruzadasConvergenAlMenor(q, {q}, qOtras, s);
    GanadorUnico(FusionTodas(p, pOtras), FusionTodas(q, qOtras), {p} + Elementos(pOtras), s);
  }
}
