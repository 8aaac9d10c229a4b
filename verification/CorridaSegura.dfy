/** The whole-run theorem: every event keeps the invariant, so every run is safe. */
module CorridaSegura {
  import opened Base
  import opened Partidas
  import opened FusionPartida
  import opened Obras
  import opened Acuerdo
  import opened FusionObras
  import opened Acciones
  import opened Corrida
  import opened CorridaLocal

  // ----- the start

  lemma InicioCumple(o0: Obra) returns (modo: Modo, hs: seq<Historia>)
    requires Trato(o0)
    ensures Inv(Inicio(o0), o0, modo, hs)
  {
    hs := seq(o0.nPartidas, _ => Historia([], None));
    modo := if o0.estado == Acordada then Vivo else SinDecidir;
  }

  // ----- sealing

  lemma RetocarConserva(o: Obra, f: Obra, o0: Obra, modo: Modo, hs: seq<Historia>)
    requires CopiaBien(o, o0, modo, hs) && MismaSalvoSello(o, f)
    ensures CopiaBien(f, o0, modo, hs)
    ensures f.estado == o.estado && |f.partidas| == |o.partidas|
    ensures forall k :: 0 <= k < |o.partidas| ==>
      |f.partidas[k].notas| == |o.partidas[k].notas| && f.partidas[k].estado == o.partidas[k].estado
  {
    assert Desnuda(o).partidas == Desnuda(f).partidas;
    assert Desnuda(o).estado == o.estado && Desnuda(f).estado == f.estado;
    assert Desnuda(o).mandante.id == o.mandante.id && Desnuda(f).mandante.id == f.mandante.id;
    forall k | 0 <= k < |o.partidas|
      ensures SinSello(o.partidas[k]) == SinSello(f.partidas[k])
    {
      assert Desnuda(o).partidas[k] == SinSello(o.partidas[k]);
      assert Desnuda(f).partidas[k] == SinSello(f.partidas[k]);
    }
    forall k | 0 <= k < |o.partidas|
      ensures |f.partidas[k].notas| == |o.partidas[k].notas|
      ensures SinTrato(o.partidas[k]) ==> SinTrato(f.partidas[k])
      ensures k < |hs| && Fiel(o.partidas[k], hs[k]) ==> Fiel(f.partidas[k], hs[k])
    {
      SelloFiel(o.partidas[k], f.partidas[k], if k < |hs| then hs[k] else Historia([], None));
    }
  }

  lemma SelloFiel(p: Partida, q: Partida, h: Historia)
    requires SinSello(p) == SinSello(q)
    ensures |q.notas| == |p.notas|
    ensures SinTrato(p) ==> SinTrato(q)
    ensures Fiel(p, h) ==> Fiel(q, h)
  {
    assert Nucleos(p.notas) == Nucleos(q.notas) by {
      assert SinSello(p).notas == Nucleos(p.notas) && SinSello(q).notas == Nucleos(q.notas);
    }
    assert |Nucleos(p.notas)| == |p.notas| && |Nucleos(q.notas)| == |q.notas|;
    if |p.notas| > 0 {
      UltimoPorNucleo(p.notas, q.notas);
    }
  }

  // ----- deliveries

  lemma FusionConservaCopia(s: Obra, o: Obra, o0: Obra, modo: Modo, hs: seq<Historia>)
    requires CopiaBien(s, o0, modo, hs) && CopiaBien(o, o0, modo, hs)
    ensures CopiaBien(FusionObra(s, o), o0, modo, hs)
  {
    if modo == Vivo {
      FusionConservaViva(s, o, o0, hs);
    } else {
      FusionConservaQuieta(s, o, o0, modo);
    }
  }

  lemma FusionConservaViva(s: Obra, o: Obra, o0: Obra, hs: seq<Historia>)
    requires CopiaViva(s, o0, hs) && CopiaViva(o, o0, hs)
    ensures CopiaViva(FusionObra(s, o), o0, hs)
  {
    var r := FusionObra(s, o);
    FusionHechos(s, o);
    FusionPorPartida(s, o);
    forall k | 0 <= k < |hs| ensures Fiel(r.partidas[k], hs[k]) {
      FusionFiel(s.partidas[k], o.partidas[k], hs[k]);
    }
  }

  lemma FusionConservaQuieta(s: Obra, o: Obra, o0: Obra, modo: Modo)
    requires modo != Vivo && CopiaQuieta(s, o0, modo) && CopiaQuieta(o, o0, modo)
    ensures CopiaQuieta(FusionObra(s, o), o0, modo)
  {
    var r := FusionObra(s, o);
    FusionHechos(s, o);
    FusionQuieta(s, o);
    SinRiesgo(r);
  }

  lemma FusionQuieta(s: Obra, o: Obra)
    requires Quieta(s) && Quieta(o)
    ensures Quieta(FusionObra(s, o))
  {
    var r := FusionObra(s, o);
    FusionPorPartida(s, o);
    if r.partidas != s.partidas {
      forall k | 0 <= k < |r.partidas|
        ensures r.partidas[k].estado.Pendiente? && SinTrato(r.partidas[k])
      {
        FusionDeSinTrato(Celda(s.partidas, k), Celda(o.partidas, k));
      }
    }
  }

  lemma SinRiesgo(r: Obra)
    requires Quieta(r)
    ensures !r.HayRiesgo() && (|r.partidas| > 0 ==> !r.TodasPagadas())
  {
    if |r.partidas| > 0 {
      assert r.partidas[0] in r.partidas;
    }
  }

  predicate AvanzaPartida(p: Partida, q: Partida) {
    |q.notas| >= |p.notas| && (p.estado.Pagada? ==> q.estado.Pagada?)
  }

  /** A device keeps, stage by stage, at least the notes it had, and a paid stage stays paid. */
  predicate Avanza(o: Obra, r: Obra, n: nat) {
    && |o.partidas| >= n && |r.partidas| >= n
    && forall k :: 0 <= k < n ==> AvanzaPartida(o.partidas[k], r.partidas[k])
  }

  lemma FusionPartidaAvanza(p: Partida, q: Partida)
    ensures AvanzaPartida(p, Fusion(p, q))
  {
    FusionNoRetrocede(p, q);
  }

  lemma FusionAvanza(s: Obra, o: Obra, n: nat)
    requires Contada(s) && Contada(o) && s.nPartidas >= n && o.nPartidas >= n
    ensures Avanza(s, FusionObra(s, o), n)
  {
    FusionPorPartida(s, o);
    var r := FusionObra(s, o);
    forall k | 0 <= k < n ensures AvanzaPartida(s.partidas[k], r.partidas[k]) {
      FusionPartidaAvanza(s.partidas[k], o.partidas[k]);
    }
  }

  function Puesta(w: Mundo, l: Lugar, r: Obra): Mundo {
    w.(copias := w.copias[l := r])
  }

  lemma TenidaSiAvanza(w: Mundo, l: Lugar, r: Obra, n: nat, k: nat, h: Historia)
    requires k < n && Tenida(w, k, h)
    requires l in w.copias ==> Avanza(w.copias[l], r, n)
    ensures Tenida(Puesta(w, l, r), k, h)
  {
    var v := Puesta(w, l, r);
    if l in w.copias {
      assert AvanzaPartida(w.copias[l].partidas[k], r.partidas[k]);
    }
    assert forall x :: Largo(v, x, k) >= Largo(w, x, k);
  }

  /** A device took a copy that is right for the mode and lost nothing: the invariant holds. */
  lemma PuestaConserva(w: Mundo, l: Lugar, r: Obra, o0: Obra, modo: Modo, hs: seq<Historia>)
    requires Inv(w, o0, modo, hs)
    requires CopiaBien(r, o0, modo, hs)
    requires l in w.copias && modo == Vivo ==> Avanza(w.copias[l], r, |hs|)
    requires modo == Rechazado && l == DeMandante ==> l in w.copias
    requires modo != SinDecidir && l == DeMandante ==> r.estado != Contra
    ensures Inv(Puesta(w, l, r), o0, modo, hs)
  {
    var v := Puesta(w, l, r);
    forall k | 0 <= k < |hs| ensures Tenida(v, k, hs[k]) {
      if modo == Vivo {
        TenidaSiAvanza(w, l, r, |hs|, k, hs[k]);
      }
    }
    assert forall x <- v.copias :: v.copias[x] == if x == l then r else w.copias[x];
  }

  lemma RecibirConserva(w: Mundo, l: Lugar, foto: Obra, o0: Obra, modo: Modo, hs: seq<Historia>)
    requires Inv(w, o0, modo, hs) && l in w.copias && foto in w.sopa
    ensures Inv(Puesta(w, l, FusionObra(w.copias[l], foto)), o0, modo, hs)
  {
    var s := w.copias[l];
    FusionConservaCopia(s, foto, o0, modo, hs);
    FusionObraNoRetrocede(s, foto);
    if modo == Vivo {
      FusionAvanza(s, foto, |hs|);
    }
    PuestaConserva(w, l, FusionObra(s, foto), o0, modo, hs);
  }

  lemma AdoptarConserva(w: Mundo, l: Lugar, foto: Obra, o0: Obra, modo: Modo, hs: seq<Historia>)
    requires Inv(w, o0, modo, hs) && l !in w.copias && foto in w.sopa
    ensures Inv(Puesta(w, l, foto), o0, modo, hs)
  {
    PuestaConserva(w, l, foto, o0, modo, hs);
  }

  lemma RetocarCumple(w: Mundo, l: Lugar, foto: Obra, o0: Obra, modo: Modo, hs: seq<Historia>)
    requires Inv(w, o0, modo, hs) && l in w.copias && MismaSalvoSello(w.copias[l], foto)
    ensures Inv(Puesta(w, l, foto), o0, modo, hs)
    ensures Inv(w.(sopa := w.sopa + {foto}), o0, modo, hs)
  {
    RetocarConserva(w.copias[l], foto, o0, modo, hs);
    PuestaConserva(w, l, foto, o0, modo, hs);
    var v := w.(sopa := w.sopa + {foto});
    forall k | 0 <= k < |hs| ensures Tenida(v, k, hs[k]) {
      assert forall x :: Largo(v, x, k) == Largo(w, x, k);
    }
  }

  // ----- actions while the counter offer is open

  lemma LocalQuieto(o: Obra, o0: Obra, modo: Modo, a: Accion, quien: Persona, ahora: int)
    requires modo != Vivo && CopiaQuieta(o, o0, modo) && Permitida(o, a)
    requires !a.Confirma? && !a.Rechaza?
    ensures CopiaQuieta(Ejecutar(o, a, quien, ahora).obra, o0, modo)
  {
    if DelEncierre(a) {
      EncierreEsSuave(o, a, quien, ahora);
      EncierreQuieto(o, a, quien, ahora);
    } else if DelCierre(a) {
      CierreEsSuave(o, a, quien, ahora);
    } else {
      JugadaQuieta(o, a, quien, ahora);
    }
  }

  lemma EncierreQuieto(o: Obra, a: Accion, quien: Persona, ahora: int)
    requires DelEncierre(a) && !a.Propone? && Quieta(o)
    ensures Quieta(Ejecutar(o, a, quien, ahora).obra)
  {
  }

  lemma JugadaQuieta(o: Obra, a: Accion, quien: Persona, ahora: int)
    requires (a.Termina? || a.Contraoferta? || a.Paga?) && Quieta(o)
    ensures Ejecutar(o, a, quien, ahora).obra == o
  {
    if Ejecutar(o, a, quien, ahora).error.Some? {
      JugadaFallida(o, a, quien, ahora);
    } else if a.Paga? {
      PagoExitoso(o, a, quien, ahora);
    } else {
      NotaExitosa(o, a, quien, ahora);
    }
  }

  lemma ConfirmaAbre(o: Obra, o0: Obra, ahora: int, hs: seq<Historia>)
    requires Trato(o0) && o0.estado == Contra && CopiaQuieta(o, o0, SinDecidir)
    requires |hs| == o0.nPartidas && forall k :: 0 <= k < |hs| ==> hs[k] == Historia([], None)
    ensures var r := ConfirmarContra(o, o0.mandante.id, ahora).obra; r.estado == Acordada && CopiaViva(r, o0, hs)
    ensures CopiaViva(o, o0, hs)
  {
  }

  lemma RechazaCierra(o: Obra, o0: Obra, ahora: int)
    requires Trato(o0) && o0.estado == Contra && CopiaQuieta(o, o0, SinDecidir)
    ensures var r := RechazarContra(o, o0.mandante.id, ahora).obra;
      r.estado == Rechazada && CopiaQuieta(r, o0, Rechazado)
  {
  }

  // ----- actions on a deal that was struck

  lemma SuaveFiel(p: Partida, q: Partida, h: Historia)
    requires Suave(p, q) && Fiel(p, h)
    ensures Fiel(q, h) && AvanzaPartida(p, q)
  {
  }

  lemma LocalSuave(o: Obra, r: Obra, o0: Obra, hs: seq<Historia>)
    requires CopiaViva(o, o0, hs) && ObraSuave(o, r)
    ensures CopiaViva(r, o0, hs) && Avanza(o, r, |hs|)
    ensures o.estado != Contra ==> r.estado != Contra
  {
    forall k | 0 <= k < |hs| ensures Fiel(r.partidas[k], hs[k]) && AvanzaPartida(o.partidas[k], r.partidas[k]) {
      SuaveFiel(o.partidas[k], r.partidas[k], hs[k]);
    }
  }

  function RolDeLugar(l: Lugar): Rol
    requires !l.Relevo?
  {
    if l.DeMandante? then Mandante else Contratista
  }

  lemma DeInv(w: Mundo, o0: Obra, hs: seq<Historia>, l: Lugar, k: nat)
    requires Inv(w, o0, Vivo, hs) && k < |hs| && l in w.copias
    ensures CopiaViva(w.copias[l], o0, hs) && Fiel(w.copias[l].partidas[k], hs[k])
    ensures Tenida(w, k, hs[k]) && HistoriaValida(hs[k], o0)
    ensures Largo(w, l, k) == |w.copias[l].partidas[k].notas|
  {
  }

  /** The person to move at this copy of the stage. */
  predicate PuedeJugar(p: Partida, rol: Rol) {
    (p.estado.Encerrada? && rol.Contratista?) || (p.estado.EnTrato? && p.turno == Some(rol))
  }

  lemma JuegaConTodo(p: Partida, h: Historia, rol: Rol)
    requires Fiel(p, h) && PuedeJugar(p, rol)
    requires |h.notas| > 0 && Toca(|h.notas| - 1) == rol ==> |p.notas| >= |h.notas|
    requires |h.notas| > 0 && Toca(|h.notas|) == rol ==> |p.notas| >= |h.notas| - 1
    requires h.fin.Some? ==> |h.notas| > 0 && (Toca(|h.notas|) == rol ==> p.estado.Pagada?)
    ensures |p.notas| == |h.notas| && h.fin.None? && rol == Toca(|h.notas|)
  {
    assert rol == Toca(|p.notas|);
  }

  /** Whoever can move at stage `k` holds the whole history, and it is that person's turn. */
  lemma QuienJuegaTieneTodo(w: Mundo, l: Lugar, k: nat, h: Historia)
    requires l in w.copias && !l.Relevo? && k < |w.copias[l].partidas|
    requires Fiel(w.copias[l].partidas[k], h) && Tenida(w, k, h) && (h.fin.Some? ==> |h.notas| > 0)
    requires PuedeJugar(w.copias[l].partidas[k], RolDeLugar(l))
    ensures |w.copias[l].partidas[k].notas| == |h.notas| && h.fin.None?
    ensures RolDeLugar(l) == Toca(|h.notas|)
  {
    assert Largo(w, l, k) == |w.copias[l].partidas[k].notas|;
    assert LugarDe(RolDeLugar(l)) == l;
    JuegaConTodo(w.copias[l].partidas[k], h, RolDeLugar(l));
  }

  lemma FielCrece(p: Partida, h: Historia, h': Historia)
    requires Fiel(p, h) && h.fin.None? && |h.notas| <= |h'.notas| && h'.notas[..|h.notas|] == h.notas
    ensures Fiel(p, h')
  {
    if p.estado.Rango() >= EN_TRATO {
      assert h'.notas[..|p.notas|] == h.notas[..|p.notas|];
    }
  }

  lemma CopiaCrece(o: Obra, o0: Obra, hs: seq<Historia>, k: nat, h': Historia)
    requires CopiaViva(o, o0, hs) && k < |hs| && hs[k].fin.None?
    requires |hs[k].notas| <= |h'.notas| && h'.notas[..|hs[k].notas|] == hs[k].notas
    ensures CopiaViva(o, o0, hs[k := h'])
  {
    forall j | 0 <= j < |hs| ensures Fiel(o.partidas[j], hs[k := h'][j]) {
      assert Fiel(o.partidas[j], hs[j]);
      if j == k {
        FielCrece(o.partidas[k], hs[k], h');
      }
    }
  }

  /** The copy `r` of the device that moved at stage `k`, next to what it was. */
  predicate Movida(o: Obra, r: Obra, k: nat) {
    && r.mandante == o.mandante && r.contratista == o.contratista
    && r.nPartidas == o.nPartidas && |r.partidas| == |o.partidas| && k < |o.partidas|
    && (r.estado == o.estado || r.estado == Cerrada)
    && (forall j :: 0 <= j < |o.partidas| && j != k ==> r.partidas[j] == o.partidas[j])
    && AvanzaPartida(o.partidas[k], r.partidas[k])
  }

  lemma MovidaViva(o: Obra, r: Obra, o0: Obra, hs: seq<Historia>, k: nat, h': Historia)
    requires CopiaViva(o, o0, hs) && k < |hs| && Movida(o, r, k) && Fiel(r.partidas[k], h')
    ensures CopiaViva(r, o0, hs[k := h']) && Avanza(o, r, |hs|)
  {
    forall j | 0 <= j < |hs|
      ensures Fiel(r.partidas[j], hs[k := h'][j]) && AvanzaPartida(o.partidas[j], r.partidas[j])
    {
      assert Fiel(o.partidas[j], hs[j]);
    }
  }

  /** `h'` continues `h` by one note, or closes it with a payment. */
  predicate Sigue(h: Historia, h': Historia) {
    && h.fin.None?
    && |h'.notas| == |h.notas| + (if h'.fin.None? then 1 else 0)
    && h'.notas[..|h.notas|] == h.notas
  }

  lemma CopiasCrecen(w: Mundo, o0: Obra, hs: seq<Historia>, l: Lugar, k: nat, r: Obra, h': Historia)
    requires k < |hs| && l in w.copias && Sigue(hs[k], h')
    requires CopiasBien(w, o0, Vivo, hs) && CopiaViva(r, o0, hs[k := h'])
    ensures CopiasBien(Puesta(w, l, r), o0, Vivo, hs[k := h'])
  {
    forall x <- Puesta(w, l, r).copias ensures CopiaViva(Puesta(w, l, r).copias[x], o0, hs[k := h']) {
      if x != l {
        CopiaCrece(w.copias[x], o0, hs, k, h');
      }
    }
    forall s <- w.sopa ensures CopiaViva(s, o0, hs[k := h']) {
      CopiaCrece(s, o0, hs, k, h');
    }
  }

  lemma HistoriasCrecen(w: Mundo, o0: Obra, hs: seq<Historia>, l: Lugar, k: nat, r: Obra, h': Historia)
    requires k < |hs| && HistoriasBien(w, o0, hs)
    requires l in w.copias && !l.Relevo? && RolDeLugar(l) == Toca(|hs[k].notas|)
    requires HistoriaValida(h', o0) && Sigue(hs[k], h') && Avanza(w.copias[l], r, |hs|)
    requires |r.partidas[k].notas| == |h'.notas| && (h'.fin.Some? ==> r.partidas[k].estado.Pagada?)
    ensures HistoriasBien(Puesta(w, l, r), o0, hs[k := h'])
  {
    var hs' := hs[k := h'];
    forall j | 0 <= j < |hs'| ensures HistoriaValida(hs'[j], o0) && Tenida(Puesta(w, l, r), j, hs'[j]) {
      if j != k {
        assert HistoriaValida(hs[j], o0) && Tenida(w, j, hs[j]);
        TenidaSiAvanza(w, l, r, |hs|, j, hs[j]);
      } else {
        HistoriaCreceTenida(w, l, k, r, hs[k], h');
      }
    }
  }

  lemma ModoSigue(w: Mundo, o0: Obra, hs: seq<Historia>, l: Lugar, r: Obra, hs': seq<Historia>)
    requires ModoBien(w, o0, Vivo, hs) && l in w.copias
    requires r.estado == w.copias[l].estado || r.estado == Cerrada
    ensures ModoBien(Puesta(w, l, r), o0, Vivo, hs')
  {
  }

  lemma VivaEn(w: Mundo, o0: Obra, hs: seq<Historia>, l: Lugar)
    requires CopiasBien(w, o0, Vivo, hs) && l in w.copias
    ensures CopiaViva(w.copias[l], o0, hs)
  {
  }

  /** One stage's history grew and one device moved with it. */
  lemma HistoriaCrece(w: Mundo, o0: Obra, hs: seq<Historia>, l: Lugar, k: nat, r: Obra, h': Historia)
    requires Inv(w, o0, Vivo, hs) && k < |hs| && l in w.copias && !l.Relevo?
    requires RolDeLugar(l) == Toca(|hs[k].notas|)
    requires HistoriaValida(h', o0) && Sigue(hs[k], h')
    requires Movida(w.copias[l], r, k)
    requires Fiel(r.partidas[k], h') && |r.partidas[k].notas| == |h'.notas|
    requires h'.fin.Some? ==> r.partidas[k].estado.Pagada?
    ensures Inv(Puesta(w, l, r), o0, Vivo, hs[k := h'])
  {
    VivaEn(w, o0, hs, l);
    MovidaViva(w.copias[l], r, o0, hs, k, h');
    CopiasCrecen(w, o0, hs, l, k, r, h');
    HistoriasCrecen(w, o0, hs, l, k, r, h');
    ModoSigue(w, o0, hs, l, r, hs[k := h']);
  }

  lemma HistoriaCreceTenida(w: Mundo, l: Lugar, k: nat, r: Obra, h: Historia, h': Historia)
    requires Tenida(w, k, h) && l in w.copias && !l.Relevo? && RolDeLugar(l) == Toca(|h.notas|)
    requires |h'.notas| == |h.notas| + (if h'.fin.None? then 1 else 0)
    requires k < |r.partidas| && |r.partidas[k].notas| == |h'.notas|
    requires h'.fin.Some? ==> r.partidas[k].estado.Pagada?
    ensures Tenida(Puesta(w, l, r), k, h')
  {
    var v := Puesta(w, l, r);
    assert Largo(v, l, k) == |h'.notas|;
    assert forall x :: x != l ==> Largo(v, x, k) == Largo(w, x, k);
    assert LugarDe(Toca(|h.notas|)) == l;
  }

  // ----- a new note

  function ConNota(h: Historia, n: Nota): Historia {
    Historia(h.notas + [Nucleo(n)], None)
  }

  /** The stage after its mover wrote the note `n`. */
  predicate Anotada(p: Partida, q: Partida, n: Nota, rol: Rol) {
    && q.estado.EnTrato? && q.notas == p.notas + [n] && q.propuesto == Some(n.porcentaje)
    && q.turno == Some(OtroRol(rol)) && q.pago == p.pago && q.recibo == p.recibo
  }

  lemma NotaFiel(p: Partida, q: Partida, h: Historia, n: Nota, rol: Rol)
    requires Fiel(p, h) && PuedeJugar(p, rol) && |p.notas| == |h.notas| && h.fin.None? && rol == Toca(|h.notas|)
    requires Anotada(p, q, n, rol)
    ensures Fiel(q, ConNota(h, n)) && |q.notas| == |ConNota(h, n).notas|
  {
    assert Nucleos(p.notas) == h.notas;
    assert Nucleos(q.notas) == Nucleos(p.notas) + [Nucleo(n)];
    assert ConNota(h, n).notas[..|q.notas|] == ConNota(h, n).notas;
  }

  lemma NotaValida(p: Partida, h: Historia, n: Nota, o0: Obra)
    requires Fiel(p, h) && |p.notas| == |h.notas| && h.fin.None? && HistoriaValida(h, o0)
    requires n.autorId == IdDe(o0, Toca(|h.notas|)) && 1 <= n.porcentaje <= 100
    requires p.estado.EnTrato? ==> p.propuesto != Some(n.porcentaje)
    ensures HistoriaValida(ConNota(h, n), o0) && Sigue(h, ConNota(h, n))
  {
    var h' := ConNota(h, n);
    if |h.notas| > 0 {
      assert p.estado.EnTrato?;
      assert Nucleos(p.notas)[|h.notas| - 1] == h.notas[|h.notas| - 1];
      assert h'.notas[|h.notas|].porcentaje != h'.notas[|h.notas| - 1].porcentaje;
    }
  }

  lemma RolDelDueno(o: Obra, o0: Obra, l: Lugar, quien: Persona)
    requires MismasPersonas(o, o0) && o0.mandante.id != o0.contratista.id && Dueno(o0, l) == Some(quien.id)
    ensures !l.Relevo? && o.RolDe(quien.id) == Some(RolDeLugar(l)) && quien.id == IdDe(o0, RolDeLugar(l))
  {
  }

  lemma NotaEnObra(o: Obra, a: Accion, quien: Persona, ahora: int) returns (n: Nota)
    requires a.Termina? || a.Contraoferta?
    requires Ejecutar(o, a, quien, ahora).error.None?
    ensures a.i < |o.partidas|
    ensures n.autorId == quien.id && 1 <= n.porcentaje <= 100
    ensures
      var p := o.partidas[a.i];
      var rol := if a.Termina? then Contratista else Mandante;
      && (a.Termina? ==> p.estado.Encerrada? && quien.id == o.contratista.id)
      && (a.Contraoferta? ==> p.estado.EnTrato? && p.turno == o.RolDe(quien.id) != None
                              && p.propuesto != Some(n.porcentaje))
    ensures
      var r := Ejecutar(o, a, quien, ahora).obra;
      && Movida(o, r, a.i) && r.estado == o.estado
      && Anotada(o.partidas[a.i], r.partidas[a.i], n,
                 if a.Termina? then Contratista else o.partidas[a.i].turno.value)
  {
    NotaExitosa(o, a, quien, ahora);
    var p, r := o.partidas[a.i], Ejecutar(o, a, quien, ahora).obra;
    var t :| r == ConPartida(o, a.i, p.(notas := p.notas + [NotaDe(quien, a.pct, t, ahora)],
                                        propuesto := Some(a.pct),
                                        turno := Some(if a.Termina? then Mandante else OtroRol(p.turno.value)),
                                        estado := EnTrato)).(actualizado := ahora);
    n := NotaDe(quien, a.pct, t, ahora);
  }

  lemma ExtiendeUno(hs: seq<Historia>, k: nat, h': Historia)
    requires k < |hs| && Sigue(hs[k], h')
    ensures Extienden(hs, hs[k := h'])
  {
  }

  lemma NotaConserva(w: Mundo, o0: Obra, hs: seq<Historia>, l: Lugar, a: Accion, quien: Persona, ahora: int)
    returns (hs': seq<Historia>)
    requires Inv(w, o0, Vivo, hs) && l in w.copias && Dueno(o0, l) == Some(quien.id)
    requires (a.Termina? || a.Contraoferta?) && a.i < |hs|
    requires Ejecutar(w.copias[l], a, quien, ahora).error.None?
    ensures Inv(Puesta(w, l, Ejecutar(w.copias[l], a, quien, ahora).obra), o0, Vivo, hs') && Extienden(hs, hs')
  {
    var o, k, h := w.copias[l], a.i, hs[a.i];
    DeInv(w, o0, hs, l, k);
    RolDelDueno(o, o0, l, quien);
    var rol := RolDeLugar(l);
    var n := NotaEnObra(o, a, quien, ahora);
    var r := Ejecutar(o, a, quien, ahora).obra;
    assert PuedeJugar(o.partidas[k], rol);
    QuienJuegaTieneTodo(w, l, k, h);
    NotaFiel(o.partidas[k], r.partidas[k], h, n, rol);
    NotaValida(o.partidas[k], h, n, o0);
    var h' := ConNota(h, n);
    HistoriaCrece(w, o0, hs, l, k, r, h');
    ExtiendeUno(hs, k, h');
    hs' := hs[k := h'];
  }

  // ----- a payment

  lemma PagoEnObra(o: Obra, a: Accion, quien: Persona, ahora: int) returns (rec: Recibo)
    requires a.Paga?
    requires Ejecutar(o, a, quien, ahora).error.None?
    ensures a.i < |o.partidas|
    ensures
      var p, r := o.partidas[a.i], Ejecutar(o, a, quien, ahora).obra;
      && p.estado.EnTrato? && p.turno == o.RolDe(quien.id) != None && p.propuesto.Some?
      && rec.porcentaje == p.propuesto.value
      && Movida(o, r, a.i)
      && r.partidas[a.i] == p.(pago := p.propuesto, turno := None, estado := Pagada, recibo := Some(rec))
  {
    PagoExitoso(o, a, quien, ahora);
    rec := ReciboDe(o, a.i, quien, o.partidas[a.i].propuesto.value, ahora);
  }

  lemma PagoFiel(p: Partida, q: Partida, h: Historia, rec: Recibo, o0: Obra)
    requires Fiel(p, h) && p.estado.EnTrato? && |p.notas| == |h.notas| && h.fin.None? && HistoriaValida(h, o0)
    requires p.propuesto == Some(rec.porcentaje)
    requires q == p.(pago := p.propuesto, turno := None, estado := Pagada, recibo := Some(rec))
    ensures var h' := h.(fin := Some(Fin(rec.porcentaje, rec)));
      Fiel(q, h') && HistoriaValida(h', o0) && Sigue(h, h')
  {
    assert Nucleos(p.notas)[|h.notas| - 1] == h.notas[|h.notas| - 1];
  }

  lemma PagoConserva(w: Mundo, o0: Obra, hs: seq<Historia>, l: Lugar, a: Accion, quien: Persona, ahora: int)
    returns (hs': seq<Historia>)
    requires Inv(w, o0, Vivo, hs) && l in w.copias && Dueno(o0, l) == Some(quien.id)
    requires a.Paga? && a.i < |hs|
    requires Ejecutar(w.copias[l], a, quien, ahora).error.None?
    ensures Inv(Puesta(w, l, Ejecutar(w.copias[l], a, quien, ahora).obra), o0, Vivo, hs') && Extienden(hs, hs')
  {
    var o, k, h := w.copias[l], a.i, hs[a.i];
    DeInv(w, o0, hs, l, k);
    RolDelDueno(o, o0, l, quien);
    var rec := PagoEnObra(o, a, quien, ahora);
    var r := Ejecutar(o, a, quien, ahora).obra;
    assert PuedeJugar(o.partidas[k], RolDeLugar(l));
    QuienJuegaTieneTodo(w, l, k, h);
    PagoFiel(o.partidas[k], r.partidas[k], h, rec, o0);
    var h' := h.(fin := Some(Fin(rec.porcentaje, rec)));
    HistoriaCrece(w, o0, hs, l, k, r, h');
    ExtiendeUno(hs, k, h');
    hs' := hs[k := h'];
  }

  // ----- every event

  /** A move on an extra stage leaves every base stage alone. */
  lemma JugadaAjena(o: Obra, o0: Obra, hs: seq<Historia>, a: Accion, quien: Persona, ahora: int)
    requires CopiaViva(o, o0, hs) && (a.Termina? || a.Contraoferta? || a.Paga?) && a.i >= |hs|
    ensures var r := Ejecutar(o, a, quien, ahora).obra;
      CopiaViva(r, o0, hs) && Avanza(o, r, |hs|) && (o.estado != Contra ==> r.estado != Contra)
  {
    var r := Ejecutar(o, a, quien, ahora).obra;
    if Ejecutar(o, a, quien, ahora).error.Some? {
      JugadaFallida(o, a, quien, ahora);
    } else if a.Paga? {
      PagoExitoso(o, a, quien, ahora);
    } else {
      var n := NotaEnObra(o, a, quien, ahora);
    }
    forall k | 0 <= k < |hs| ensures Fiel(r.partidas[k], hs[k]) && AvanzaPartida(o.partidas[k], r.partidas[k]) {
      assert Fiel(o.partidas[k], hs[k]);
      assert r.partidas[k] == o.partidas[k];
    }
  }

  /** A successful move on a base stage. */
  predicate JugadaBase(o: Obra, n: nat, a: Accion, quien: Persona, ahora: int) {
    (a.Termina? || a.Contraoferta? || a.Paga?) && a.i < n && Ejecutar(o, a, quien, ahora).error.None?
  }

  lemma JugadaConserva(w: Mundo, o0: Obra, hs: seq<Historia>, l: Lugar, a: Accion, quien: Persona, ahora: int)
    returns (hs': seq<Historia>)
    requires Inv(w, o0, Vivo, hs) && l in w.copias && Dueno(o0, l) == Some(quien.id)
    requires JugadaBase(w.copias[l], |hs|, a, quien, ahora)
    ensures Inv(Puesta(w, l, Ejecutar(w.copias[l], a, quien, ahora).obra), o0, Vivo, hs') && Extienden(hs, hs')
  {
    if a.Paga? {
      hs' := PagoConserva(w, o0, hs, l, a, quien, ahora);
    } else {
      hs' := NotaConserva(w, o0, hs, l, a, quien, ahora);
    }
  }

  lemma LocalVivo(w: Mundo, o0: Obra, hs: seq<Historia>, l: Lugar, a: Accion, quien: Persona, ahora: int)
    returns (hs': seq<Historia>)
    requires Inv(w, o0, Vivo, hs) && l in w.copias && Dueno(o0, l) == Some(quien.id) && Permitida(w.copias[l], a)
    ensures Inv(Puesta(w, l, Ejecutar(w.copias[l], a, quien, ahora).obra), o0, Vivo, hs') && Extienden(hs, hs')
  {
    if JugadaBase(w.copias[l], |hs|, a, quien, ahora) {
      hs' := JugadaConserva(w, o0, hs, l, a, quien, ahora);
    } else {
      hs' := hs;
      RestoConserva(w, o0, hs, l, a, quien, ahora);
    }
  }

  lemma RestoConserva(w: Mundo, o0: Obra, hs: seq<Historia>, l: Lugar, a: Accion, quien: Persona, ahora: int)
    requires Inv(w, o0, Vivo, hs) && l in w.copias && Dueno(o0, l) == Some(quien.id) && Permitida(w.copias[l], a)
    requires (a.Termina? || a.Contraoferta? || a.Paga?) ==>
      a.i >= |hs| || Ejecutar(w.copias[l], a, quien, ahora).error.Some?
    ensures Inv(Puesta(w, l, Ejecutar(w.copias[l], a, quien, ahora).obra), o0, Vivo, hs)
  {
    VivaEn(w, o0, hs, l);
    LocalVivoSinHistoria(w, o0, hs, l, a, quien, ahora);
    PuestaConserva(w, l, Ejecutar(w.copias[l], a, quien, ahora).obra, o0, Vivo, hs);
  }

  lemma LocalVivoSinHistoria(w: Mundo, o0: Obra, hs: seq<Historia>, l: Lugar, a: Accion, quien: Persona, ahora: int)
    requires Trato(o0) && ModoBien(w, o0, Vivo, hs)
    requires l in w.copias && Dueno(o0, l) == Some(quien.id) && Permitida(w.copias[l], a)
    requires CopiaViva(w.copias[l], o0, hs)
    requires (a.Termina? || a.Contraoferta? || a.Paga?) ==>
      a.i >= |hs| || Ejecutar(w.copias[l], a, quien, ahora).error.Some?
    ensures var o, r := w.copias[l], Ejecutar(w.copias[l], a, quien, ahora).obra;
      CopiaViva(r, o0, hs) && Avanza(o, r, |hs|) && (o.estado != Contra ==> r.estado != Contra)
  {
    var o := w.copias[l];
    if a.Termina? || a.Contraoferta? || a.Paga? {
      if a.i >= |hs| {
        JugadaAjena(o, o0, hs, a, quien, ahora);
      } else {
        JugadaFallida(o, a, quien, ahora);
      }
    } else if DelEncierre(a) {
      EncierreEsSuave(o, a, quien, ahora);
      LocalSuave(o, Ejecutar(o, a, quien, ahora).obra, o0, hs);
    } else if DelCierre(a) {
      CierreEsSuave(o, a, quien, ahora);
      LocalSuave(o, Ejecutar(o, a, quien, ahora).obra, o0, hs);
    } else {
      assert l == DeContratista;
      assert Ejecutar(o, a, quien, ahora).obra == o;
    }
  }

  lemma LocalSinDecidir(w: Mundo, o0: Obra, modo: Modo, hs: seq<Historia>, l: Lugar, a: Accion, quien: Persona,
                        ahora: int)
    returns (modo': Modo)
    requires modo != Vivo && Inv(w, o0, modo, hs)
    requires l in w.copias && Dueno(o0, l) == Some(quien.id) && Permitida(w.copias[l], a)
    ensures Inv(Puesta(w, l, Ejecutar(w.copias[l], a, quien, ahora).obra), o0, modo', hs)
    ensures modo' != modo ==> modo == SinDecidir
  {
    var o := w.copias[l];
    var r := Ejecutar(o, a, quien, ahora).obra;
    modo' := modo;
    if a.Confirma? || a.Rechaza? {
      if l == DeContratista {
        assert r == o;
        PuestaConserva(w, l, r, o0, modo, hs);
      } else {
        assert modo == SinDecidir;
        modo' := if a.Confirma? then Vivo else Rechazado;
        DecidirConserva(w, o0, hs, a, quien, ahora, modo');
      }
    } else {
      LocalQuieto(o, o0, modo, a, quien, ahora);
      PuestaConserva(w, l, r, o0, modo, hs);
    }
  }

  /** The principal answers the counter offer: from here on the deal is live, or dead. */
  lemma DecidirConserva(w: Mundo, o0: Obra, hs: seq<Historia>, a: Accion, quien: Persona, ahora: int, modo: Modo)
    requires Inv(w, o0, SinDecidir, hs) && DeMandante in w.copias && quien.id == o0.mandante.id
    requires (a.Confirma? && modo == Vivo) || (a.Rechaza? && modo == Rechazado)
    ensures Inv(Puesta(w, DeMandante, Ejecutar(w.copias[DeMandante], a, quien, ahora).obra), o0, modo, hs)
  {
    var o := w.copias[DeMandante];
    var r := Ejecutar(o, a, quien, ahora).obra;
    forall c: Obra | CopiaQuieta(c, o0, SinDecidir) ensures CopiaBien(c, o0, modo, hs) {
      if a.Confirma? {
        ConfirmaAbre(c, o0, ahora, hs);
      }
    }
    if a.Confirma? {
      ConfirmaAbre(o, o0, ahora, hs);
    } else {
      RechazaCierra(o, o0, ahora);
    }
    assert CopiasBien(Puesta(w, DeMandante, r), o0, modo, hs);
  }

  lemma EventoConserva(w: Mundo, e: Evento, o0: Obra, modo: Modo, hs: seq<Historia>)
    returns (modo': Modo, hs': seq<Historia>)
    requires Inv(w, o0, modo, hs)
    ensures Inv(Siguiente(w, e, o0), o0, modo', hs') && Extienden(hs, hs')
    ensures modo' != modo ==> modo == SinDecidir
  {
    modo', hs' := modo, hs;
    if Posible(w, e, o0) {
      match e
      case Local(l, a, quien, ahora) =>
        if modo == Vivo {
          hs' := LocalVivo(w, o0, hs, l, a, quien, ahora);
        } else {
          modo' := LocalSinDecidir(w, o0, modo, hs, l, a, quien, ahora);
        }
      case Publicar(l, foto) => RetocarCumple(w, l, foto, o0, modo, hs);
      case Recibir(l, foto) => RecibirConserva(w, l, foto, o0, modo, hs);
      case Adoptar(l, foto) => AdoptarConserva(w, l, foto, o0, modo, hs);
      case Retocar(l, foto) => RetocarCumple(w, l, foto, o0, modo, hs);
    }
  }

  lemma {:induction false} CorridaConserva(w: Mundo, es: seq<Evento>, o0: Obra, modo: Modo, hs: seq<Historia>)
    returns (modo': Modo, hs': seq<Historia>)
    requires Inv(w, o0, modo, hs)
    ensures Inv(Tras(w, es, o0), o0, modo', hs') && Extienden(hs, hs')
    decreases |es|
  {
    if |es| == 0 {
      modo', hs' := modo, hs;
    } else {
      var m, h := CorridaConserva(w, es[..|es| - 1], o0, modo, hs);
      modo', hs' := EventoConserva(Tras(w, es[..|es| - 1], o0), es[|es| - 1], o0, m, h);
      assert Extienden(hs, hs') by {
        forall k | 0 <= k < |hs| ensures Extiende(hs[k], hs'[k]) {
          assert Extiende(hs[k], h[k]) && Extiende(h[k], hs'[k]);
        }
      }
    }
  }

  lemma {:induction false} TrasJunto(w: Mundo, es: seq<Evento>, fs: seq<Evento>, o0: Obra)
    ensures Tras(w, es + fs, o0) == Tras(Tras(w, es, o0), fs, o0)
    decreases |fs|
  {
    if |fs| == 0 {
      assert es + fs == es;
    } else {
      assert (es + fs)[..|es + fs| - 1] == es + fs[..|fs| - 1];
      TrasJunto(w, es, fs[..|fs| - 1], o0);
    }
  }

  lemma InvEsSeguro(w: Mundo, o0: Obra, modo: Modo, hs: seq<Historia>)
    requires Inv(w, o0, modo, hs)
    ensures Seguro(w, o0, hs)
  {
    if modo != Vivo {
      forall c: Obra | CopiaQuieta(c, o0, modo) ensures TodaFiel(c, hs) {
      }
    }
  }

  /** The whole-run theorem. After any run there is one note history per base stage that
      every copy anywhere follows, and whatever happens later only adds to it. */
  lemma NegociacionSegura(o0: Obra, antes: seq<Evento>, luego: seq<Evento>)
    requires Trato(o0)
    ensures exists hs: seq<Historia>, hs': seq<Historia> ::
      && Seguro(Tras(Inicio(o0), antes, o0), o0, hs)
      && Seguro(Tras(Inicio(o0), antes + luego, o0), o0, hs')
      && Extienden(hs, hs')
  {
    var m0, h0 := InicioCumple(o0);
    var m, h := CorridaConserva(Inicio(o0), antes, o0, m0, h0);
    var m', h' := CorridaConserva(Tras(Inicio(o0), antes, o0), luego, o0, m, h);
    TrasJunto(Inicio(o0), antes, luego, o0);
    InvEsSeguro(Tras(Inicio(o0), antes, o0), o0, m, h);
    InvEsSeguro(Tras(Inicio(o0), antes + luego, o0), o0, m', h');
  }

  lemma MundoAlcanzado(o0: Obra, es: seq<Evento>) returns (modo: Modo, hs: seq<Historia>)
    requires Trato(o0)
    ensures Inv(Tras(Inicio(o0), es, o0), o0, modo, hs) && Seguro(Tras(Inicio(o0), es, o0), o0, hs)
  {
    var m0, h0 := InicioCumple(o0);
    modo, hs := CorridaConserva(Inicio(o0), es, o0, m0, h0);
    InvEsSeguro(Tras(Inicio(o0), es, o0), o0, modo, hs);
  }

  lemma CopiaFiel(w: Mundo, o0: Obra, hs: seq<Historia>, c: Obra, k: nat)
    requires Seguro(w, o0, hs) && Existe(w, c) && k < |hs| && k < |c.partidas|
    ensures Fiel(c.partidas[k], hs[k])
  {
    assert TodaFiel(c, hs);
  }

  /** Any two paid copies of a base stage, wherever they are, agree on the payment, the
      receipt and the whole negotiation. */
  lemma PagosDeAcuerdo(o0: Obra, es: seq<Evento>, c: Obra, d: Obra, k: nat)
    requires Trato(o0) && k < o0.nPartidas
    requires Existe(Tras(Inicio(o0), es, o0), c) && Existe(Tras(Inicio(o0), es, o0), d)
    requires k < |c.partidas| && k < |d.partidas| && c.partidas[k].estado.Pagada? && d.partidas[k].estado.Pagada?
    ensures c.partidas[k].pago == d.partidas[k].pago != None
    ensures c.partidas[k].recibo == d.partidas[k].recibo != None
    ensures Nucleos(c.partidas[k].notas) == Nucleos(d.partidas[k].notas)
  {
    var modo, hs := MundoAlcanzado(o0, es);
    CopiaFiel(Tras(Inicio(o0), es, o0), o0, hs, c, k);
    CopiaFiel(Tras(Inicio(o0), es, o0), o0, hs, d, k);
    PagadasIguales(c.partidas[k], d.partidas[k], hs[k]);
  }

  lemma PagadasIguales(p: Partida, q: Partida, h: Historia)
    requires Fiel(p, h) && Fiel(q, h) && p.estado.Pagada? && q.estado.Pagada?
    ensures p.pago == q.pago != None && p.recibo == q.recibo != None && Nucleos(p.notas) == Nucleos(q.notas)
  {
  }

  /** Someone who can move stage `k` in a safe world: the history is open, and it is that
      person's turn in it. */
  lemma JuegaEnTurno(w: Mundo, o0: Obra, modo: Modo, hs: seq<Historia>, l: Lugar, k: nat, a: Accion, quien: Persona,
                     ahora: int)
    requires Inv(w, o0, modo, hs) && k < |hs| && Juega(w, o0, l, k, a, quien, ahora)
    ensures !l.Relevo? && RolDeLugar(l) == Toca(|hs[k].notas|) && hs[k].fin.None?
  {
    var o := w.copias[l];
    if modo != Vivo {
      assert CopiaQuieta(o, o0, modo);
      JugadaExitosaPuede(o, a, quien, ahora);
    } else {
      DeInv(w, o0, hs, l, k);
      RolDelDueno(o, o0, l, quien);
      JugadaExitosaPuede(o, a, quien, ahora);
      QuienJuegaTieneTodo(w, l, k, hs[k]);
    }
  }

  lemma JugadaExitosaPuede(o: Obra, a: Accion, quien: Persona, ahora: int)
    requires a.Termina? || a.Contraoferta? || a.Paga?
    requires Ejecutar(o, a, quien, ahora).error.None?
    ensures a.i < |o.partidas|
    ensures
      var p := o.partidas[a.i];
      || (p.estado.Encerrada? && quien.id == o.contratista.id)
      || (p.estado.EnTrato? && p.turno == o.RolDe(quien.id) != None)
  {
    if a.Paga? {
      PagoExitoso(o, a, quien, ahora);
    } else {
      NotaExitosa(o, a, quien, ahora);
    }
  }

  /** At most one party moves, and nobody does once the copy `visto` shows the stage paid. */
  predicate TurnoUnico(w: Mundo, o0: Obra, k: nat, a: Accion, m: Persona, ta: int, b: Accion, c: Persona, tb: int,
                       visto: Obra)
  {
    var jm, jc := Juega(w, o0, DeMandante, k, a, m, ta), Juega(w, o0, DeContratista, k, b, c, tb);
    && !(jm && jc)
    && (Existe(w, visto) && k < |visto.partidas| && visto.partidas[k].estado.Pagada? ==> !jm && !jc)
  }

  lemma TurnoUnicoEn(w: Mundo, o0: Obra, modo: Modo, hs: seq<Historia>, k: nat,
                     a: Accion, m: Persona, ta: int, b: Accion, c: Persona, tb: int, visto: Obra)
    requires Inv(w, o0, modo, hs) && Seguro(w, o0, hs) && k < |hs|
    ensures TurnoUnico(w, o0, k, a, m, ta, b, c, tb, visto)
  {
    JuegaSoloSiToca(w, o0, modo, hs, DeMandante, k, a, m, ta);
    JuegaSoloSiToca(w, o0, modo, hs, DeContratista, k, b, c, tb);
    if Existe(w, visto) && k < |visto.partidas| && visto.partidas[k].estado.Pagada? {
      PagadaTermina(w, o0, hs, k, visto);
    }
  }

  lemma JuegaSoloSiToca(w: Mundo, o0: Obra, modo: Modo, hs: seq<Historia>, l: Lugar, k: nat,
                        a: Accion, quien: Persona, ahora: int)
    requires Inv(w, o0, modo, hs) && k < |hs|
    ensures Juega(w, o0, l, k, a, quien, ahora) ==>
      !l.Relevo? && RolDeLugar(l) == Toca(|hs[k].notas|) && hs[k].fin.None?
  {
    if Juega(w, o0, l, k, a, quien, ahora) {
      JuegaEnTurno(w, o0, modo, hs, l, k, a, quien, ahora);
    }
  }

  lemma PagadaTermina(w: Mundo, o0: Obra, hs: seq<Historia>, k: nat, visto: Obra)
    requires Seguro(w, o0, hs) && k < |hs|
    requires Existe(w, visto) && k < |visto.partidas| && visto.partidas[k].estado.Pagada?
    ensures hs[k].fin.Some?
  {
    CopiaFiel(w, o0, hs, visto, k);
  }

  /** In every reachable world at most one of the two parties can move a stage, whatever
      percentage, note and clock it tries; and once any copy anywhere, even in flight, has
      the stage paid, neither can. */
  lemma UnoSoloJuega(o0: Obra, es: seq<Evento>, k: nat,
                     a: Accion, m: Persona, ta: int, b: Accion, c: Persona, tb: int, visto: Obra)
    requires Trato(o0) && k < o0.nPartidas
    ensures TurnoUnico(Tras(Inicio(o0), es, o0), o0, k, a, m, ta, b, c, tb, visto)
  {
    var modo, hs := MundoAlcanzado(o0, es);
    TurnoUnicoEn(Tras(Inicio(o0), es, o0), o0, modo, hs, k, a, m, ta, b, c, tb, visto);
  }
}
