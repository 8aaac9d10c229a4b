/** One step of a run on one copy: what actions, merges and sealing do to its stages. */
module CorridaLocal {
  import opened Base
  import opened Texto
  import opened Partidas
  import opened Obras
  import opened Acuerdo
  import opened FusionObras
  import opened Acciones
  import opened Corrida

  // ----- actions outside the negotiation

  /** The stage did not change, or moved among the states before any note. */
  predicate Suave(p: Partida, q: Partida) {
    q == p || (
      && p.estado.Rango() < EN_TRATO && q.estado.Rango() < EN_TRATO
      && q.notas == p.notas && q.propuesto == p.propuesto && q.turno == p.turno
      && q.pago == p.pago && q.recibo == p.recibo)
  }

  /** The job kept its people and its stages, perhaps with more stages after them. */
  predicate ObraSuave(o: Obra, r: Obra) {
    && r.mandante == o.mandante && r.contratista == o.contratista
    && (Contada(o) ==> Contada(r))
    && |r.partidas| >= |o.partidas|
    && (forall k :: 0 <= k < |o.partidas| ==> Suave(o.partidas[k], r.partidas[k]))
    && (r.estado == o.estado || r.estado == EnMarcha || r.estado == Abandonada || r.estado == Cerrada)
  }

  predicate DelEncierre(a: Accion) {
    a.Propone? || a.Fondea? || a.Cancela? || a.Edita?
  }

  predicate DelCierre(a: Accion) {
    a.ProponeExtra? || a.AceptaExtra? || a.RechazaExtra? || a.Abandona? || a.AceptaCierre? || a.RechazaCierre?
  }

  lemma EncierreEsSuave(o: Obra, a: Accion, quien: Persona, ahora: int)
    requires DelEncierre(a)
    ensures ObraSuave(o, Ejecutar(o, a, quien, ahora).obra)
    ensures Ejecutar(o, a, quien, ahora).obra.contra == o.contra
    ensures Ejecutar(o, a, quien, ahora).obra.nPartidas == o.nPartidas
    ensures !a.Propone? ==> Ejecutar(o, a, quien, ahora).obra.estado == o.estado
  {
    if a.Fondea? || a.Cancela? {
      RespuestaEsSuave(o, a, quien, ahora);
    }
  }

  lemma RespuestaEsSuave(o: Obra, a: Accion, quien: Persona, ahora: int)
    requires a.Fondea? || a.Cancela?
    ensures var r := Ejecutar(o, a, quien, ahora).obra;
      ObraSuave(o, r) && r.contra == o.contra && r.nPartidas == o.nPartidas && r.estado == o.estado
  {
  }

  lemma CierreEsSuave(o: Obra, a: Accion, quien: Persona, ahora: int)
    requires DelCierre(a) && Permitida(o, a)
    ensures ObraSuave(o, Ejecutar(o, a, quien, ahora).obra)
    ensures Ejecutar(o, a, quien, ahora).obra.contra == o.contra
    ensures !EnCurso(o) ==>
      var r := Ejecutar(o, a, quien, ahora).obra;
      r.partidas == o.partidas && r.nPartidas == o.nPartidas && (r.estado == o.estado || r.estado == Abandonada)
  {
    if !a.ProponeExtra? && !a.AceptaExtra? && !a.RechazaExtra? {
      FinalEsSuave(o, a, quien, ahora);
    }
  }

  lemma FinalEsSuave(o: Obra, a: Accion, quien: Persona, ahora: int)
    requires a.Abandona? || a.AceptaCierre? || a.RechazaCierre?
    ensures var r := Ejecutar(o, a, quien, ahora).obra;
      && ObraSuave(o, r) && r.contra == o.contra && r.partidas == o.partidas && r.nPartidas == o.nPartidas
      && (r.estado == o.estado || r.estado == Abandonada)
  {
  }

  lemma JugadaFallida(o: Obra, a: Accion, quien: Persona, ahora: int)
    requires a.Termina? || a.Contraoferta? || a.Paga?
    requires Ejecutar(o, a, quien, ahora).error.Some?
    ensures Ejecutar(o, a, quien, ahora).obra == o
  {
  }

  // ----- negotiation moves

  /** A successful note: whose turn it was, and the stage afterwards. */
  lemma NotaExitosa(o: Obra, a: Accion, quien: Persona, ahora: int)
    requires a.Termina? || a.Contraoferta?
    requires Ejecutar(o, a, quien, ahora).error.None?
    ensures var r := Ejecutar(o, a, quien, ahora).obra;
      && a.i < |o.partidas| && 1 <= a.pct <= 100
      && var p := o.partidas[a.i];
      && (if a.Termina? then p.estado.Encerrada? && quien.id == o.contratista.id
          else p.estado.EnTrato? && p.turno == o.RolDe(quien.id) != None && p.propuesto != Some(a.pct))
      && exists t ::
           && r == ConPartida(o, a.i, p.(notas := p.notas + [NotaDe(quien, a.pct, t, ahora)],
                                         propuesto := Some(a.pct),
                                         turno := Some(if a.Termina? then Mandante else OtroRol(p.turno.value)),
                                         estado := EnTrato)).(actualizado := ahora)
  {
    var t := LimpiaNota(a.nota).valor;
  }

  /** A successful payment. */
  lemma PagoExitoso(o: Obra, a: Accion, quien: Persona, ahora: int)
    requires a.Paga?
    requires Ejecutar(o, a, quien, ahora).error.None?
    ensures var r := Ejecutar(o, a, quien, ahora).obra;
      && a.i < |o.partidas|
      && var p := o.partidas[a.i];
      && p.estado.EnTrato? && p.turno == o.RolDe(quien.id) != None && p.propuesto.Some?
      && r.partidas == o.partidas[a.i := p.(pago := p.propuesto, turno := None, estado := Pagada,
                                            recibo := Some(ReciboDe(o, a.i, quien, p.propuesto.value, ahora)))]
      && r.mandante == o.mandante && r.contratista == o.contratista && r.nPartidas == o.nPartidas
      && (r.estado == o.estado || r.estado == Cerrada)
  {
  }

  // ----- merges

  lemma FusionDeSinTrato(p: Partida, q: Partida)
    requires p.estado.Rango() < EN_TRATO && q.estado.Rango() < EN_TRATO && SinTrato(p) && SinTrato(q)
    ensures Fusion(p, q).estado.Rango() < EN_TRATO && SinTrato(Fusion(p, q))
    ensures p.estado.Pendiente? && q.estado.Pendiente? ==> Fusion(p, q).estado.Pendiente?
  {
  }

  lemma UltimoPorNucleo(a: seq<Nota>, b: seq<Nota>)
    requires Nucleos(a) == Nucleos(b) && |a| > 0
    ensures |a| == |b| && a[|a| - 1].porcentaje == b[|b| - 1].porcentaje
  {
    assert |Nucleos(a)| == |a| && Nucleos(a)[|a| - 1] == Nucleo(a[|a| - 1]);
    assert |Nucleos(b)| == |b| && Nucleos(b)[|b| - 1] == Nucleo(b[|b| - 1]);
  }

  /** `r` has the negotiation fields of `m`, and its notes up to their words. */
  predicate MismoTrato(r: Partida, m: Partida) {
    && r.estado == m.estado && Nucleos(r.notas) == Nucleos(m.notas)
    && r.propuesto == m.propuesto && r.turno == m.turno && r.pago == m.pago && r.recibo == m.recibo
  }

  lemma MismoTratoFiel(r: Partida, m: Partida, h: Historia)
    requires MismoTrato(r, m) && Fiel(m, h) && m.estado.Rango() >= EN_TRATO
    ensures Fiel(r, h)
  {
    UltimoPorNucleo(m.notas, r.notas);
  }

  lemma AdelantarFiel(p: Partida, q: Partida, h: Historia)
    requires Fiel(q, h) && q.estado.Rango() >= EN_TRATO && q.estado.Rango() > p.estado.Rango()
    requires |p.notas| <= |q.notas| && p.recibo.None?
    ensures Fiel(FaseAdelante(p, q), h)
  {
    NucleosEstables(q.notas, p.notas);
    NucleosEstables(Restauradas(q.notas, p.notas), q.notas);
    MismoTratoFiel(FaseAdelante(p, q), q, h);
  }

  lemma MismoFiel(p: Partida, q: Partida, h: Historia)
    requires Fiel(q, h) && q.estado.Rango() >= EN_TRATO && q.estado == p.estado
    requires Fiel(p, h) || SinTrato(p)
    ensures Fiel(FaseFinal(FaseMismoEstado(p, q), q), h)
  {
    var r := FaseMismoEstado(p, q);
    NucleosEstables(q.notas, p.notas);
    NucleosEstables(r.notas, q.notas);
    if |q.notas| > |p.notas| {
      assert MismoTrato(FaseFinal(r, q), q);
      MismoTratoFiel(FaseFinal(r, q), q, h);
    } else {
      assert Fiel(p, h);
      assert MismoTrato(FaseFinal(r, q), p);
      MismoTratoFiel(FaseFinal(r, q), p, h);
    }
  }

  lemma AtrasFiel(p: Partida, q: Partida, h: Historia)
    requires Fiel(p, h) && p.estado.Rango() >= EN_TRATO && p.estado != q.estado
    ensures Fiel(FaseFinal(p, q), h)
  {
    NucleosEstables(p.notas, q.notas);
    MismoTratoFiel(FaseFinal(p, q), p, h);
  }

  lemma FaseSeqSuave(p: Partida, q: Partida)
    ensures var r := FaseSeq(p, q);
      && (r.estado == p.estado || (p.estado.Rango() < EN_TRATO && r.estado == q.estado))
      && r.notas == p.notas && r.propuesto == p.propuesto && r.turno == p.turno
      && r.pago == p.pago && r.recibo == p.recibo
  {
  }

  /** Merging two points of a history gives a point of that history, never an earlier one. */
  lemma FusionFiel(p: Partida, q: Partida, h: Historia)
    requires Fiel(p, h) && Fiel(q, h)
    ensures Fiel(Fusion(p, q), h)
  {
    if p.estado.Rango() < EN_TRATO && q.estado.Rango() < EN_TRATO {
      FusionDeSinTrato(p, q);
    } else {
      var p0 := p.(detalle := if p.detalle == "" then q.detalle else p.detalle);
      var p1 := FaseSeq(p0, q);
      FaseSeqSuave(p0, q);
      if q.estado.Rango() > p1.estado.Rango() {
        AdelantarFiel(p1, q, h);
      } else if q.estado == p1.estado {
        MismoFiel(p1, q, h);
      } else {
        AtrasFiel(p1, q, h);
      }
    }
  }
}
