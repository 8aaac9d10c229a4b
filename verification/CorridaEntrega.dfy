/** Redelivery in whole runs: of any base stage, one delivery of any copy to any copy is all
    that copy can ever bring. */
module CorridaEntrega {
  import opened Partidas
  import opened FusionLimites
  import opened Obras
  import opened FusionObras
  import opened Acciones
  import opened Corrida
  import opened CorridaSegura
  import opened CorridaBotones
  import opened Dinero

  /** The first `n` stages are of the original deal: they have no amount of their own. */
  predicate SinMonto(o: Obra, n: nat) {
    forall k :: 0 <= k < n && k < |o.partidas| ==> o.partidas[k].monto == 0
  }

  lemma FusionSinMonto(s: Obra, o: Obra, n: nat)
    requires SinMonto(s, n) && SinMonto(o, n)
    ensures SinMonto(FusionObra(s, o), n)
  {
    var r := FusionObra(s, o);
    FusionHechos(s, o);
    if r.partidas != s.partidas {
      forall k | 0 <= k < n && k < |r.partidas| ensures r.partidas[k].monto == 0 {
        FusionSinMontoPartida(Celda(s.partidas, k), Celda(o.partidas, k));
      }
    }
  }

  lemma FusionSinMontoPartida(p: Partida, o: Partida)
    requires p.monto == 0 && o.monto == 0
    ensures Fusion(p, o).monto == 0
  {
  }

  lemma SelloSinMonto(o: Obra, f: Obra, n: nat)
    requires SinMonto(o, n) && MismaSalvoSello(o, f)
    ensures SinMonto(f, n)
  {
    assert Desnuda(o).partidas == Desnuda(f).partidas;
    forall k | 0 <= k < n && k < |f.partidas| ensures f.partidas[k].monto == 0 {
      assert Desnuda(o).partidas[k] == SinSello(o.partidas[k]);
      assert Desnuda(f).partidas[k] == SinSello(f.partidas[k]);
    }
  }

  /** An accepted extra stage comes after the base ones. */
  lemma AccionSinMonto(o: Obra, a: Accion, quien: Persona, ahora: int, o0: Obra, modo: Modo, hs: seq<Historia>)
    requires CopiaBien(o, o0, modo, hs) && SinMonto(o, |hs|)
    ensures SinMonto(Ejecutar(o, a, quien, ahora).obra, |hs|)
  {
    if DePartida(a) {
      PartidaMantieneMontos(o, a, quien, ahora);
    } else if a.AceptaExtra? {
      ExtraDetras(o, a, quien, ahora, o0, modo, hs);
    } else {
      OtraSinMonto(o, a, quien, ahora, |hs|);
    }
  }

  lemma ExtraDetras(o: Obra, a: Accion, quien: Persona, ahora: int, o0: Obra, modo: Modo, hs: seq<Historia>)
    requires CopiaBien(o, o0, modo, hs) && SinMonto(o, |hs|) && a.AceptaExtra?
    ensures SinMonto(Ejecutar(o, a, quien, ahora).obra, |hs|)
  {
  }

  lemma OtraSinMonto(o: Obra, a: Accion, quien: Persona, ahora: int, n: nat)
    requires SinMonto(o, n) && !DePartida(a) && !a.AceptaExtra?
    ensures SinMonto(Ejecutar(o, a, quien, ahora).obra, n)
  {
  }

  predicate MundoSinMonto(w: Mundo, n: nat) {
    (forall l <- w.copias :: SinMonto(w.copias[l], n)) && (forall s <- w.sopa :: SinMonto(s, n))
  }

  lemma EventoSinMonto(w: Mundo, e: Evento, o0: Obra, modo: Modo, hs: seq<Historia>)
    requires Inv(w, o0, modo, hs) && MundoSinMonto(w, |hs|)
    ensures MundoSinMonto(Siguiente(w, e, o0), |hs|)
  {
    if Posible(w, e, o0) {
      match e
      case Local(l, a, quien, ahora) =>
        LocalSinMonto(w, l, a, quien, ahora, o0, modo, hs);
        PuestaSinMonto(w, l, Ejecutar(w.copias[l], a, quien, ahora).obra, |hs|);
      case Publicar(l, foto) => SelloSinMonto(w.copias[l], foto, |hs|);
      case Recibir(l, foto) =>
        FusionSinMonto(w.copias[l], foto, |hs|);
        PuestaSinMonto(w, l, FusionObra(w.copias[l], foto), |hs|);
      case Adoptar(_, _) =>
      case Retocar(l, foto) => SelloSinMonto(w.copias[l], foto, |hs|);
    }
  }

  lemma LocalSinMonto(w: Mundo, l: Lugar, a: Accion, quien: Persona, ahora: int, o0: Obra, modo: Modo,
                      hs: seq<Historia>)
    requires Inv(w, o0, modo, hs) && MundoSinMonto(w, |hs|) && l in w.copias
    ensures SinMonto(Ejecutar(w.copias[l], a, quien, ahora).obra, |hs|)
  {
    AccionSinMonto(w.copias[l], a, quien, ahora, o0, modo, hs);
  }

  lemma PuestaSinMonto(w: Mundo, l: Lugar, r: Obra, n: nat)
    requires MundoSinMonto(w, n) && SinMonto(r, n)
    ensures MundoSinMonto(w.(copias := w.copias[l := r]), n)
  {
  }

  lemma {:induction false} SiempreSinMonto(o0: Obra, es: seq<Evento>)
    requires Trato(o0) && SinMonto(o0, o0.nPartidas)
    ensures MundoSinMonto(Tras(Inicio(o0), es, o0), o0.nPartidas)
    decreases |es|
  {
    if |es| == 0 {
      assert SinMonto(o0, o0.nPartidas);
    } else {
      SiempreSinMonto(o0, es[..|es| - 1]);
      var modo, hs := MundoAlcanzado(o0, es[..|es| - 1]);
      EventoSinMonto(Tras(Inicio(o0), es[..|es| - 1], o0), es[|es| - 1], o0, modo, hs);
    }
  }

  /** In every reachable world, for any two copies on devices or in flight: a second delivery
      of one to the other changes no field of a base stage. */
  lemma UnaEntregaAlcanzaEnCorridas(o0: Obra, es: seq<Evento>, c: Obra, d: Obra, k: nat)
    requires Trato(o0) && SinMonto(o0, o0.nPartidas) && k < o0.nPartidas
    requires Existe(Tras(Inicio(o0), es, o0), c) && Existe(Tras(Inicio(o0), es, o0), d)
    requires k < |c.partidas| && k < |d.partidas|
    ensures var p, q := c.partidas[k], d.partidas[k];
      Fusion(Fusion(p, q), q) == Fusion(p, q)
  {
    SiempreBienFormada(o0, es);
    SiempreSinMonto(o0, es);
    assert Formada(c, o0.mandante.id, o0.contratista.id) && Formada(d, o0.mandante.id, o0.contratista.id);
    assert SinMonto(c, o0.nPartidas) && SinMonto(d, o0.nPartidas);
    UnaEntregaAlcanza(c.partidas[k], d.partidas[k]);
  }
}
