/** `preparar` and `aplicar_pendiente` step by step on a data folder. `pasos` is the number of
    steps until the process is cut or a step reports an error, so a contract that holds for
    every `pasos` holds for every such point. */
module RestauracionLocal {
  import opened Base
  import opened Texto
  import opened Restauracion
  import opened RestauracionTraza

  /** `Ok(aplicado)`, or the process was cut or a step reported an error. */
  datatype Resultado = Listo(aplicado: bool) | Cortado

  /** The name tried after `k` taken ones: `base`, `base-1`, `base-2`, ... */
  function Candidato(base: string, k: nat): string {
    if k == 0 then base else base + "-" + Decimal(k)
  }

  lemma CandidatosDistintos(base: string, j: nat, k: nat)
    requires Candidato(base, j) == Candidato(base, k)
    ensures j == k
  {
    if j > 0 && k > 0 {
      assert Candidato(base, j)[|base| + 1..] == Decimal(j);
      assert Candidato(base, k)[|base| + 1..] == Decimal(k);
      DecimalInyectivo(j, k);
    }
  }

  lemma PrevioCandidato(base: string, p: string)
    requires EsPrevio(base) && exists k :: p == Candidato(base, k)
    ensures EsPrevio(p)
  {
  }

  lemma MasChico<T>(a: set<T>, b: set<T>)
    requires a <= b
    ensures |a| <= |b|
  {
    assert b == a + (b - a);
  }

  class DataDir {
    var d: Disco
    /** Atomic steps left before the cut. */
    var pasos: nat
    /** A rename destroyed an entry that was at its destination. */
    ghost var piso: bool

    constructor (disco: Disco)
      ensures d == disco && pasos == 0 && !piso
    {
      d, pasos, piso := disco, 0, false;
    }

    // ----- atomic steps

    method CrearCarpeta(p: string) returns (ok: bool)
      modifies this
      ensures ok ==> d == ConPrevio(old(d), p) && old(pasos) >= pasos >= old(pasos) - 1
      ensures !ok ==> d == old(d) && old(pasos) == 0
      ensures piso == old(piso)
    {
      if p in d {
        return true;
      }
      if pasos == 0 {
        return false;
      }
      pasos, d := pasos - 1, d[p := Carpeta(map[])];
      return true;
    }

    method RenombrarA(n: string, p: string) returns (ok: bool)
      requires n in d && p in d && d[p].Carpeta? && n != p
      modifies this
      ensures ok ==> d == Movido(old(d), n, p) && pasos == old(pasos) - 1
      ensures !ok ==> d == old(d) && old(pasos) == 0
      ensures piso == (old(piso) || (ok && n in old(d)[p].m))
    {
      if pasos == 0 {
        return false;
      }
      piso := piso || n in d[p].m;
      pasos, d := pasos - 1, Movido(d, n, p);
      return true;
    }

    method RenombrarDesdeListo(n: string) returns (ok: bool)
      requires LISTO in d && d[LISTO].Carpeta? && n in d[LISTO].m && n != LISTO
      modifies this
      ensures ok ==> d == Sacado(old(d), n) && pasos == old(pasos) - 1
      ensures !ok ==> d == old(d) && old(pasos) == 0
      ensures piso == (old(piso) || (ok && n in old(d)))
    {
      if pasos == 0 {
        return false;
      }
      piso := piso || n in d;
      pasos, d := pasos - 1, Sacado(d, n);
      return true;
    }

    method BorrarMarca() returns (ok: bool)
      requires LISTO in d && d[LISTO].Carpeta? && FASE_A in d[LISTO].m
      modifies this
      ensures ok ==> d == SinMarca(old(d)) && pasos == old(pasos) - 1
      ensures !ok ==> d == old(d) && old(pasos) == 0
      ensures piso == old(piso)
    {
      if pasos == 0 {
        return false;
      }
      pasos, d := pasos - 1, SinMarca(d);
      return true;
    }

    /** `remove_dir`: it fails on a folder that is not empty. */
    method BorrarListoVacia() returns (ok: bool)
      requires LISTO in d && d[LISTO].Carpeta?
      modifies this
      ensures ok ==> old(d)[LISTO].m == map[] && d == old(d) - {LISTO} && pasos == old(pasos) - 1
      ensures !ok ==> d == old(d) && (old(pasos) == 0 || old(d)[LISTO].m != map[])
      ensures piso == old(piso)
    {
      if pasos == 0 || d[LISTO].m.Keys != {} {
        return false;
      }
      assert d[LISTO].m == map[];
      pasos, d := pasos - 1, d - {LISTO};
      return true;
    }

    /** `remove_dir_all` on the staging folder: its entries go one by one, then the folder. It
        stops at the first that cannot be removed: those in `tercas` are the ones that stay, and
        the folder with them. Neither that nor being cut in between is reported to anyone. */
    method BorrarTemporal(tercas: set<string>)
      modifies this
      ensures d - {TEMPORAL} == old(d) - {TEMPORAL} && (TEMPORAL !in old(d) ==> TEMPORAL !in d)
      ensures BienTemporal(old(d)) ==> BienTemporal(d)
      ensures TemporalEsCarpeta(d) <==> TemporalEsCarpeta(old(d))
      ensures pasos > 0 && TemporalEsCarpeta(d) ==> Escenario(d) == Restos(old(d), tercas)
      ensures piso == old(piso)
    {
      if TEMPORAL !in d || d[TEMPORAL].Archivo? {
        return;
      }
      var faltan := d[TEMPORAL].m.Keys - tercas;
      while faltan != {} && pasos > 0
        invariant TEMPORAL in d && d[TEMPORAL].Carpeta? && TEMPORAL in old(d) && old(d)[TEMPORAL].Carpeta?
        invariant d - {TEMPORAL} == old(d) - {TEMPORAL} && EsResto(d[TEMPORAL], old(d)[TEMPORAL])
        invariant faltan <= d[TEMPORAL].m.Keys
        invariant d[TEMPORAL].m.Keys - faltan == old(d)[TEMPORAL].m.Keys * tercas
        invariant piso == old(piso)
        decreases pasos
      {
        var n :| n in faltan;
        pasos, d := pasos - 1, d[TEMPORAL := Carpeta(d[TEMPORAL].m - {n})];
        faltan := faltan - {n};
      }
      if faltan == {} {
        SoloTercas(old(d), d[TEMPORAL], tercas);
      }
      if d[TEMPORAL].m.Keys == {} && pasos > 0 {
        pasos, d := pasos - 1, d - {TEMPORAL};
      }
    }

    // ----- applying

    /** The first free name: at most as many are taken as the folder has entries. */
    method NombreLibre(base: string) returns (p: string)
      ensures p !in d && exists k :: p == Candidato(base, k)
    {
      var n := 0;
      p := base;
      ghost var vistos: set<string> := {};
      while p in d
        invariant p == Candidato(base, n)
        invariant vistos <= d.Keys && |vistos| == n
        invariant forall v <- vistos :: exists k :: 0 <= k < n && v == Candidato(base, k)
        decreases |d.Keys| - n
      {
        if p in vistos {
          var k :| 0 <= k < n && p == Candidato(base, k);
          CandidatosDistintos(base, k, n);
        }
        MasChico(vistos + {p}, d.Keys);
        vistos := vistos + {p};
        n := n + 1;
        p := base + "-" + Decimal(n);
      }
    }

    /** `mover_a_previo`: moves `n` away if it is there, into a folder chosen at first need.
        `d0` is the disk that the start found. */
    method MoverAPrevio(n: string, destino: Option<string>, base: string, ghost d0: Disco)
      returns (ok: bool, hacia: Option<string>)
      requires Avance(d0, d) && n in VIVOS && Toca(d, n) && EsPrevio(base)
      requires destino.Some? ==> Nuevo(d0, d, destino.value)
      modifies this
      ensures Avance(d0, d) && (hacia.Some? ==> Nuevo(d0, d, hacia.value))
      ensures LISTO in d && d[LISTO] == old(d)[LISTO]
      ensures ok ==> n !in d && pasos >= old(pasos) - 2
      ensures !ok ==> old(pasos) < 2
      ensures SinVivasDeMas(old(d), d)
      ensures piso == old(piso)
    {
      NombresAparte();
      hacia := destino;
      if n !in d {
        return true, hacia;
      }
      ok, hacia := Destino(destino, base, d0);
      if ok {
        ok := MoverHacia(n, hacia.value, d0);
      }
    }

    /** The folder of this start, made now if it is the first entry. */
    method Destino(destino: Option<string>, base: string, ghost d0: Disco) returns (ok: bool, hacia: Option<string>)
      requires Avance(d0, d) && EsPrevio(base)
      requires destino.Some? ==> Nuevo(d0, d, destino.value)
      modifies this
      ensures Avance(d0, d) && (hacia.Some? ==> Nuevo(d0, d, hacia.value))
      ensures MismasVivas(old(d), d) && (ok ==> hacia.Some? && pasos >= old(pasos) - 1)
      ensures !ok ==> old(pasos) < 1
      ensures piso == old(piso)
    {
      NombresAparte();
      var p;
      if destino.Some? {
        p := destino.value;
      } else {
        p := NombreLibre(base);
        PrevioCandidato(base, p);
        NuevaCarpeta(d0, d, p);
      }
      ok := CrearCarpeta(p);
      hacia := if ok then Some(p) else None;
    }

    method MoverHacia(n: string, p: string, ghost d0: Disco) returns (ok: bool)
      requires Avance(d0, d) && n in VIVOS && n in d && Toca(d, n) && Nuevo(d0, d, p)
      modifies this
      ensures Avance(d0, d) && Nuevo(d0, d, p) && LISTO in d && d[LISTO] == old(d)[LISTO]
      ensures ok ==> n !in d && pasos == old(pasos) - 1
      ensures !ok ==> old(pasos) == 0
      ensures SinVivasDeMas(old(d), d)
      ensures piso == old(piso)
    {
      MueveUna(d0, d, n, p);
      ok := RenombrarA(n, p);
    }

    /** Everything live that is there goes away, and then the marker. */
    method FaseA(base: string, ghost d0: Disco) returns (ok: bool, destino: Option<string>)
      requires Avance(d0, d) && Marcada(d) && EsPrevio(base)
      modifies this
      ensures Avance(d0, d) && LISTO in d
      ensures ok ==> !Marcada(d) && pasos >= old(pasos) - 11 && (destino.Some? ==> Nuevo(d0, d, destino.value))
      ensures !ok ==> old(pasos) < 11
      ensures piso == old(piso)
    {
      destino := None;
      var k := 0;
      while k < |VIVOS|
        invariant 0 <= k <= |VIVOS| && Avance(d0, d) && Marcada(d)
        invariant Despejada(d, k)
        invariant destino.Some? ==> Nuevo(d0, d, destino.value)
        invariant pasos >= old(pasos) - 2 * k
        invariant piso == old(piso)
      {
        ghost var antes := d;
        ok, destino := MoverAPrevio(VIVOS[k], destino, base, d0);
        if !ok {
          return;
        }
        DespejaUna(antes, d, k);
        k := k + 1;
      }
      ok := TerminarFaseA(destino, d0);
    }

    method TerminarFaseA(ghost destino: Option<string>, ghost d0: Disco) returns (ok: bool)
      requires Avance(d0, d) && Marcada(d) && Despejada(d, |VIVOS|)
      requires destino.Some? ==> Nuevo(d0, d, destino.value)
      modifies this
      ensures Avance(d0, d) && LISTO in d && (destino.Some? ==> Nuevo(d0, d, destino.value))
      ensures ok ==> !Marcada(d) && pasos == old(pasos) - 1
      ensures !ok ==> old(pasos) == 0
      ensures piso == old(piso)
    {
      QuitaMarca(d0, d);
      ghost var antes := d;
      ok := BorrarMarca();
      if ok && destino.Some? {
        SigueNuevo(d0, antes, destino.value);
      }
    }

    /** Everything restored comes in, over what the application may have written meanwhile, and
        then its empty folder goes. */
    method FaseB(base: string, previo: Option<string>, ghost d0: Disco) returns (ok: bool)
      requires Avance(d0, d) && LISTO in d && !Marcada(d) && EsPrevio(base)
      requires previo.Some? ==> Nuevo(d0, d, previo.value)
      modifies this
      ensures Avance(d0, d)
      ensures ok ==> LISTO !in d
      ensures !ok ==> LISTO in d && old(pasos) < 3 * |old(d)[LISTO].m.Keys| + 1
      ensures piso == old(piso)
    {
      var destino := previo;
      var entradas := d[LISTO].m.Keys;
      while entradas != {}
        invariant Avance(d0, d) && LISTO in d && !Marcada(d) && d[LISTO].m.Keys == entradas
        invariant destino.Some? ==> Nuevo(d0, d, destino.value)
        invariant pasos + 3 * |old(d)[LISTO].m.Keys| >= old(pasos) + 3 * |entradas|
        invariant piso == old(piso)
        decreases |entradas|
      {
        var n :| n in entradas;
        ok, destino := PonerEnSuLugar(n, destino, base, d0);
        if !ok {
          return false;
        }
        entradas := entradas - {n};
      }
      assert d[LISTO].m == map[];
      BorraListo(d0, d);
      ok := BorrarListoVacia();
    }

    /** One entry of the waiting folder. */
    method PonerEnSuLugar(n: string, previo: Option<string>, base: string, ghost d0: Disco)
      returns (ok: bool, destino: Option<string>)
      requires Avance(d0, d) && LISTO in d && !Marcada(d) && n in d[LISTO].m && EsPrevio(base)
      requires previo.Some? ==> Nuevo(d0, d, previo.value)
      modifies this
      ensures Avance(d0, d) && LISTO in d && !Marcada(d)
      ensures destino.Some? ==> Nuevo(d0, d, destino.value)
      ensures ok ==> d[LISTO].m.Keys == old(d)[LISTO].m.Keys - {n} && pasos >= old(pasos) - 3
      ensures !ok ==> old(pasos) < 3
      ensures piso == old(piso)
    {
      NombresAparte();
      ok, destino := MoverAPrevio(n, previo, base, d0);
      if !ok {
        return;
      }
      SacaUna(d0, d, n);
      ok := RenombrarDesdeListo(n);
    }

    /** One start of the application, on a folder in any state that cuts, errors and writes may
        have left. Wherever it stops, it made progress and the next start can go on; if it
        reports success nothing is left to do; given enough steps it does. With nothing
        waiting it only clears the staging folder. */
    method AplicarPendiente(base: string) returns (r: Resultado)
      requires Bien(d) && EsPrevio(base)
      modifies this
      ensures Avance(old(d), d) && piso == old(piso)
      ensures LISTO !in old(d) ==> r == Listo(false) && d - {TEMPORAL} == old(d) - {TEMPORAL}
      ensures LISTO in old(d) ==> (r == Listo(true) <==> LISTO !in d) && r != Listo(false)
      ensures LISTO in old(d) && old(pasos) >= BASTA ==> r == Listo(true)
    {
      ghost var d0 := d;
      SinAvance(d);
      if LISTO !in d {
        BorrarTemporal({});
        TemporalNoImporta(d0, d);
        return Listo(false);
      }
      var ok, destino := true, None;
      if FASE_A in d[LISTO].m {
        ok, destino := FaseA(base, d0);
        if !ok {
          return Cortado;
        }
      }
      PocasEntradas(d[LISTO].m);
      ok := FaseB(base, destino, d0);
      return if ok then Listo(true) else Cortado;
    }

    // ----- preparing

    /** Writes one entry of the staging folder; cut in the middle it leaves any `parcial`. */
    method EscribirTemporal(n: string, parcial: Nodo, entero: Nodo) returns (ok: bool)
      requires TEMPORAL in d && d[TEMPORAL].Carpeta?
      modifies this
      ensures ok ==> d == old(d)[TEMPORAL := Carpeta(old(d)[TEMPORAL].m[n := entero])]
      ensures d - {TEMPORAL} == old(d) - {TEMPORAL} && pasos <= old(pasos) && (ok ==> old(pasos) > 0)
      ensures piso == old(piso)
    {
      if pasos == 0 {
        return false;
      }
      pasos, d := pasos - 1, d[TEMPORAL := Carpeta(d[TEMPORAL].m[n := parcial])];
      if pasos == 0 {
        return false;
      }
      ghost var m := old(d)[TEMPORAL].m;
      assert d[TEMPORAL].m[n := entero] == m[n := entero];
      pasos, d := pasos - 1, d[TEMPORAL := Carpeta(d[TEMPORAL].m[n := entero])];
      assert d == old(d)[TEMPORAL := Carpeta(m[n := entero])];
      return true;
    }

    /** Until its last rename nothing in use changes; after it the new set is waiting, with what an
        earlier preparation left in the staging folder and was not removed (`tercas`). A
        restore that was waiting before is deleted entry by entry just before that: what is
        left of it if the deletion is cut is described by `RoidaValeSi`. `valido` says that the
        backup decrypts and validates, `hay` that this folder already holds an account. */
    method Preparar(nuevo: Disco, parciales: map<string, Nodo>, valido: bool, hay: bool, reemplazar: bool,
                    tercas: set<string>)
      returns (ok: bool)
      requires Bien(d) && BienTemporal(d) && forall n <- nuevo :: n in VIVOS && n in parciales
      modifies this
      ensures ok ==> valido && (hay ==> reemplazar)
      ensures ok ==> d == ConListo(old(d), Carpeta((Restos(old(d), tercas) + nuevo)[FASE_A := Archivo("")]))
      ensures !ok ==> Comida(old(d), d)
      ensures piso == old(piso)
    {
      NombresAparte();
      if !valido || (hay && !reemplazar) {
        return false;
      }
      BorrarTemporal(tercas);
      SinTemporalComida(old(d), d);
      ghost var borrado := d;
      ok := Armar(nuevo, parciales);
      SinTemporalComida(old(d), d);
      if ok {
        ghost var lleno := d;
        ok := Cambiar();
        if !ok {
          ComidaMas(old(d), lleno, d);
        } else {
          assert Escenario(borrado) == Restos(old(d), tercas);
        }
      }
      if !ok {
        ghost var fallo := d;
        BorrarTemporal(tercas);
        ComidaSinTemporal(old(d), fallo, d);
      }
    }

    /** Puts the full staging folder where a waiting one may be. */
    method Cambiar() returns (ok: bool)
      requires Bien(d) && TEMPORAL in d
      modifies this
      ensures ok ==> d == ConListo(old(d), old(d)[TEMPORAL])
      ensures !ok ==> d - {LISTO} == old(d) - {LISTO}
      ensures !ok ==> LISTO in d ==> LISTO in old(d) && EsResto(d[LISTO], old(d)[LISTO])
      ensures piso == old(piso)
    {
      NombresAparte();
      ok := BorrarListo();
      PorEntradas(old(d), d, {LISTO});
      if ok {
        ghost var listo := d;
        ok := RenombrarTemporal();
        if ok {
          SinListoIgual(old(d), listo, old(d)[TEMPORAL]);
        }
      }
    }

    /** `remove_dir_all` on a waiting folder: its entries go one by one, in any order, then the
        folder. */
    method BorrarListo() returns (ok: bool)
      requires Bien(d)
      modifies this
      ensures d - {LISTO} == old(d) - {LISTO} && (LISTO in d ==> LISTO in old(d) && EsResto(d[LISTO], old(d)[LISTO]))
      ensures LISTO in d ==> |d[LISTO].m.Keys| + old(pasos) == |old(d)[LISTO].m.Keys|
      ensures ok <==> LISTO !in d
      ensures LISTO in old(d) ==> (ok <==> old(pasos) > |old(d)[LISTO].m.Keys|)
      ensures piso == old(piso)
    {
      if LISTO !in d {
        return true;
      }
      VaciarListo();
      if pasos > 0 {
        assert |d[LISTO].m.Keys| == 0;
        pasos, d := pasos - 1, d - {LISTO};
      }
      return LISTO !in d;
    }

    method VaciarListo()
      requires Bien(d) && LISTO in d
      modifies this
      ensures LISTO in d && d - {LISTO} == old(d) - {LISTO} && EsResto(d[LISTO], old(d)[LISTO])
      ensures |d[LISTO].m.Keys| + old(pasos) == |old(d)[LISTO].m.Keys| + pasos
      ensures d[LISTO].m.Keys == {} || pasos == 0
      ensures piso == old(piso)
    {
      while d[LISTO].m.Keys != {} && pasos > 0
        invariant LISTO in d && d - {LISTO} == old(d) - {LISTO} && EsResto(d[LISTO], old(d)[LISTO])
        invariant |d[LISTO].m.Keys| + old(pasos) == |old(d)[LISTO].m.Keys| + pasos
        invariant piso == old(piso)
        decreases pasos
      {
        var n :| n in d[LISTO].m;
        UnaMenos(d[LISTO].m, n);
        pasos, d := pasos - 1, Roida(d, {n});
      }
    }

    /** Fills the staging folder, over what may be there, the marker last. */
    method Armar(nuevo: Disco, parciales: map<string, Nodo>) returns (ok: bool)
      requires BienTemporal(d) && forall n <- nuevo :: n in parciales
      modifies this
      ensures d - {TEMPORAL} == old(d) - {TEMPORAL}
      ensures ok ==> old(pasos) > 0 && TemporalEsCarpeta(old(d))
      ensures ok ==> TEMPORAL in d && d[TEMPORAL] == Carpeta((Escenario(old(d)) + nuevo)[FASE_A := Archivo("")])
      ensures piso == old(piso)
    {
      if TEMPORAL in d && d[TEMPORAL].Archivo? {
        return false;
      }
      ok := CrearCarpeta(TEMPORAL);
      if !ok {
        return false;
      }
      ok := Volcar(nuevo, parciales);
      if ok {
        ok := EscribirTemporal(FASE_A, Archivo(""), Archivo(""));
      }
    }

    /** One entry after another, in any order. */
    method Volcar(nuevo: Disco, parciales: map<string, Nodo>) returns (ok: bool)
      requires TEMPORAL in d && d[TEMPORAL].Carpeta?
      requires forall n <- nuevo :: n in parciales
      modifies this
      ensures d - {TEMPORAL} == old(d) - {TEMPORAL} && pasos <= old(pasos)
      ensures ok ==> TEMPORAL in d && d[TEMPORAL] == Carpeta(old(d)[TEMPORAL].m + nuevo)
      ensures piso == old(piso)
    {
      var faltan := nuevo.Keys;
      while faltan != {}
        invariant TEMPORAL in d && d[TEMPORAL].Carpeta? && d - {TEMPORAL} == old(d) - {TEMPORAL}
        invariant faltan <= nuevo.Keys && d[TEMPORAL].m == old(d)[TEMPORAL].m + (nuevo - faltan)
        invariant pasos <= old(pasos) && piso == old(piso)
        decreases |faltan|
      {
        var n :| n in faltan;
        ok := EscribirTemporal(n, parciales[n], nuevo[n]);
        if !ok {
          return false;
        }
        MenosUna(old(d)[TEMPORAL].m, nuevo, faltan, n);
        faltan := faltan - {n};
      }
      assert nuevo - {} == nuevo;
      return true;
    }

    method RenombrarTemporal() returns (ok: bool)
      requires TEMPORAL in d && LISTO !in d
      modifies this
      ensures ok ==> d == (old(d) - {TEMPORAL})[LISTO := old(d)[TEMPORAL]]
      ensures !ok ==> d == old(d)
      ensures piso == old(piso)
    {
      if pasos == 0 {
        return false;
      }
      pasos, d := pasos - 1, (d - {TEMPORAL})[LISTO := d[TEMPORAL]];
      return true;
    }

    // ----- any plan of starts and writes

    /** What a running application does to a live entry. */
    method Escribir(n: string, x: Option<Nodo>)
      requires n in VIVOS
      modifies this
      ensures d == Escrito(old(d), n, x) && piso == old(piso)
    {
      match x {
        case None => d := d - {n};
        case Some(y) => d := d[n := y];
      }
    }

    /** Carries out a plan until a start reports that it restored. `hist` is the trace. */
    method Vivir(plan: seq<Suceso>) returns (r: Resultado, hechos: nat, ghost hist: seq<Disco>)
      requires Bien(d) && Posible(plan)
      modifies this
      ensures hechos <= |plan| && Traza(hist, plan[..hechos]) && hist[0] == old(d) && hist[hechos] == d
      ensures piso == old(piso)
      ensures r == Listo(true) ==> LISTO !in d
      ensures LISTO in old(d) ==> (r == Listo(true) <==> LISTO !in d)
      ensures LISTO in old(d) && Alcanza(plan) ==> r == Listo(true)
    {
      r, hechos, hist := Cortado, 0, [d];
      while hechos < |plan| && r != Listo(true)
        invariant hechos <= |plan| && |hist| == hechos + 1 && hist[0] == old(d) && hist[hechos] == d
        invariant Traza(hist, plan[..hechos]) && Bien(d) && piso == old(piso)
        invariant r == Listo(true) ==> LISTO !in d
        invariant LISTO in old(d) ==> (r == Listo(true) <==> LISTO !in d)
        invariant LISTO in old(d) && Alcanza(plan[..hechos]) ==> r == Listo(true)
      {
        ghost var antes := d;
        match plan[hechos] {
          case Arranque(n, base) =>
            pasos := n;
            r := AplicarPendiente(base);
          case Escribe(n, x) =>
            EscritoFuturo(d, n, x);
            Escribir(n, x);
        }
        TrazaCrece(hist, plan, hechos, d);
        hist := hist + [d];
        hechos := hechos + 1;
      }
      assert plan[..|plan|] == plan;
    }

    /** The whole restore: preparing, cut anywhere, and then any plan. If the preparation did not
        finish (and nothing was waiting) the live entries are the old set. If it did and a start
        reports success, they are the set that was put in waiting exactly when the application
        left no other content behind the restore's back; with cuts only, every replaced entry is
        whole in exactly one `previo-*`, and nothing else moved. Nothing is ever overwritten.
        That set is the one of the backup exactly when no other entry stayed staged from before. */
    method Restaurar(nuevo: Disco, parciales: map<string, Nodo>, valido: bool, hay: bool, reemplazar: bool,
                     tercas: set<string>, plan: seq<Suceso>)
      returns (preparado: bool, r: Resultado, hechos: nat, ghost hist: seq<Disco>)
      requires Bien(d) && BienTemporal(d) && Posible(plan)
      requires forall n <- nuevo :: n in VIVOS && n in parciales
      modifies this
      ensures piso == old(piso)
      ensures hechos <= |plan| && Traza(hist, plan[..hechos]) && hist[hechos] == d
      ensures !preparado && LISTO !in old(d) && SinEscrituras(plan) ==> Vivas(d) == Vivas(old(d))
      ensures preparado && Alcanza(plan) ==> r == Listo(true)
      ensures preparado && r == Listo(true) ==>
        (Vivas(d) == Puesto(old(d), tercas, nuevo) <==>
           SinHuella(Desvios(hist, plan[..hechos]), Puesto(old(d), tercas, nuevo)))
      ensures preparado && r == Listo(true) && SinEscrituras(plan) ==>
        Restaurada(old(d), Puesto(old(d), tercas, nuevo), d)
      ensures Puesto(old(d), tercas, nuevo) == nuevo <==>
        forall n <- Restos(old(d), tercas) :: n == FASE_A || n in nuevo
    {
      preparado := Preparar(nuevo, parciales, valido, hay, reemplazar, tercas);
      ghost var d0, puesto := d, Puesto(old(d), tercas, nuevo);
      PuestoSi(old(d), tercas, nuevo);
      PuestoEntra(old(d), tercas, nuevo);
      if preparado {
        ListoPuesto(old(d), puesto, d0);
      } else {
        ComidaBien(old(d), d0);
      }
      r, hechos, hist := Vivir(plan);
      assert SinEscrituras(plan) ==> SinEscrituras(plan[..hechos]);
      if r == Listo(true) {
        RestauradaSi(hist, plan[..hechos]);
      }
      if SinEscrituras(plan) {
        SoloCortes(hist, plan[..hechos]);
        if !preparado && LISTO !in old(d) {
          assert Avance(d0, d) && LISTO !in d0;
        } else if preparado && r == Listo(true) {
          AvanceEsRestaurada(old(d), d0, puesto, d);
        }
      }
    }

    /** Replacing a waiting restore, cut after one deletion: the next start reports success on
        what is left, a strictly smaller set if the deleted entry is not the marker. */
    method ReemplazarCortado(base: string) returns (r: Resultado, ghost n: string)
      requires Bien(d) && Marcada(d) && |d[LISTO].m.Keys| > 1 && EsPrevio(base)
      modifies this
      ensures r == Listo(true) && n in old(d)[LISTO].m
      ensures Vivas(d) == Futuro(Roida(old(d), {n}))
      ensures n != FASE_A ==> Vivas(d) == Futuro(old(d)) - {n} && Vivas(d) != Futuro(old(d))
    {
      ghost var antes := d;
      pasos := 1;
      var _ := BorrarListo();
      n := UnaFalta(antes, d);
      RoidaValeSi(antes, {n});
      pasos := BASTA;
      r := AplicarPendiente(base);
    }
  }

  /** Steps that are enough for one start: at most two per live entry and the marker, then at
      most three per restored entry and the folder. */
  const BASTA := 27

  /** The first `k` live names are free. */
  predicate Despejada(d: Disco, k: nat)
    requires k <= |VIVOS|
  {
    forall j :: 0 <= j < k ==> VIVOS[j] !in d
  }

  ghost predicate MismasVivas(d: Disco, e: Disco) {
    forall n :: n in VIVOS || n == LISTO ==> (n in e <==> n in d) && (n in d ==> e[n] == d[n])
  }

  predicate SinVivasDeMas(d: Disco, e: Disco) {
    forall j :: 0 <= j < |VIVOS| && VIVOS[j] in e ==> VIVOS[j] in d
  }

  lemma DespejaUna(d: Disco, e: Disco, k: nat)
    requires k < |VIVOS| && Despejada(d, k) && SinVivasDeMas(d, e) && VIVOS[k] !in e
    ensures Despejada(e, k + 1)
  {
  }

  predicate Posible(plan: seq<Suceso>) {
    forall k :: 0 <= k < |plan| ==>
      match plan[k]
      case Arranque(_, base) => EsPrevio(base)
      case Escribe(n, _) => n in VIVOS
  }

  predicate Alcanza(plan: seq<Suceso>) {
    exists k :: 0 <= k < |plan| && plan[k].Arranque? && plan[k].pasos >= BASTA
  }

  lemma TrazaCrece(hist: seq<Disco>, plan: seq<Suceso>, k: nat, e: Disco)
    requires k < |plan| && Traza(hist, plan[..k]) && Tramo(hist[k], plan[k], e)
    ensures Traza(hist + [e], plan[..k + 1])
    ensures Alcanza(plan[..k + 1]) <==> Alcanza(plan[..k]) || (plan[k].Arranque? && plan[k].pasos >= BASTA)
  {
    var h, p := hist + [e], plan[..k + 1];
    assert p == plan[..k] + [plan[k]];
    forall j | 0 <= j <= k ensures Tramo(h[j], p[j], h[j + 1]) {
      assert j < k ==> Tramo(hist[j], plan[..k][j], hist[j + 1]);
    }
  }

  /** A new folder is still new when only the waiting folder changed. */
  lemma SigueNuevo(d0: Disco, d: Disco, p: string)
    requires Nuevo(d0, d, p) && LISTO in d && d[LISTO].Carpeta?
    ensures Nuevo(d0, SinMarca(d), p)
  {
  }

  // ----- around the preparation

  /** A staging folder holds what an earlier preparation wrote. */
  predicate BienTemporal(d: Disco) {
    TEMPORAL in d && d[TEMPORAL].Carpeta? ==> forall n <- d[TEMPORAL].m :: n in VIVOS || n == FASE_A
  }

  predicate TemporalEsCarpeta(d: Disco) {
    TEMPORAL in d ==> d[TEMPORAL].Carpeta?
  }

  /** What is staged. */
  function Escenario(d: Disco): Disco {
    if TEMPORAL in d && d[TEMPORAL].Carpeta? then d[TEMPORAL].m else map[]
  }

  /** What is staged and stays. */
  function Restos(d: Disco, tercas: set<string>): Disco {
    map n | n in Escenario(d) && n in tercas :: Escenario(d)[n]
  }

  lemma SoloTercas(d: Disco, quedo: Nodo, tercas: set<string>)
    requires TEMPORAL in d && d[TEMPORAL].Carpeta? && EsResto(quedo, d[TEMPORAL])
    requires quedo.m.Keys - {} == d[TEMPORAL].m.Keys * tercas
    ensures quedo.m == Restos(d, tercas)
  {
    assert quedo.m.Keys == quedo.m.Keys - {};
    assert quedo.m.Keys == Restos(d, tercas).Keys;
  }

  /** The set that a preparation puts in waiting. */
  function Puesto(d: Disco, tercas: set<string>, nuevo: Disco): Disco {
    (Restos(d, tercas) - {FASE_A}) + nuevo
  }

  /** It is the set of the backup exactly when everything that stayed is the marker or is written
      over. */
  lemma PuestoSi(d: Disco, tercas: set<string>, nuevo: Disco)
    ensures Puesto(d, tercas, nuevo) == nuevo <==> forall n <- Restos(d, tercas) :: n == FASE_A || n in nuevo
  {
    var r := Restos(d, tercas);
    if Puesto(d, tercas, nuevo) == nuevo {
      assert forall n <- r :: n != FASE_A ==> n in Puesto(d, tercas, nuevo);
    }
  }

  lemma PuestoEntra(d: Disco, tercas: set<string>, nuevo: Disco)
    requires BienTemporal(d) && forall n <- nuevo :: n in VIVOS
    ensures (Restos(d, tercas) + nuevo)[FASE_A := Archivo("")] == Puesto(d, tercas, nuevo)[FASE_A := Archivo("")]
    ensures forall n <- Puesto(d, tercas, nuevo) :: n in VIVOS
  {
    NombresAparte();
  }

  predicate EsResto(a: Nodo, b: Nodo) {
    a.Carpeta? && b.Carpeta? && a.m.Keys <= b.m.Keys && forall n <- a.m :: a.m[n] == b.m[n]
  }

  /** Apart from the staging folder, only a waiting restore may have lost entries. */
  predicate Comida(d: Disco, e: Disco) {
    && e - {TEMPORAL} - {LISTO} == d - {TEMPORAL} - {LISTO}
    && (LISTO in e ==> LISTO in d && EsResto(e[LISTO], d[LISTO]))
  }

  lemma PorEntradas(d: Disco, e: Disco, quitadas: set<string>)
    ensures d - quitadas == e - quitadas <==>
      forall n :: n !in quitadas ==> (n in d <==> n in e) && (n in d ==> d[n] == e[n])
  {
    assert forall n :: n !in quitadas ==> (n in d <==> n in d - quitadas) && (n in e <==> n in e - quitadas);
    assert forall n :: n !in quitadas && n in d ==> (d - quitadas)[n] == d[n];
    assert forall n :: n !in quitadas && n in e ==> (e - quitadas)[n] == e[n];
  }

  lemma SinTemporalComida(d: Disco, e: Disco)
    requires Bien(d) && e - {TEMPORAL} == d - {TEMPORAL}
    ensures Comida(d, e) && Bien(e)
  {
    NombresAparte();
    PorEntradas(d, e, {TEMPORAL});
    assert d - {TEMPORAL} - {LISTO} == e - {TEMPORAL} - {LISTO};
  }

  lemma ComidaMas(d: Disco, e: Disco, f: Disco)
    requires Comida(d, e) && f - {LISTO} == e - {LISTO} && (LISTO in f ==> LISTO in e && EsResto(f[LISTO], e[LISTO]))
    ensures Comida(d, f)
  {
    assert f - {TEMPORAL} - {LISTO} == f - {LISTO} - {TEMPORAL};
    assert e - {TEMPORAL} - {LISTO} == e - {LISTO} - {TEMPORAL};
  }

  lemma ComidaSinTemporal(d: Disco, e: Disco, f: Disco)
    requires Comida(d, e) && f - {TEMPORAL} == e - {TEMPORAL}
    ensures Comida(d, f)
  {
    NombresAparte();
    PorEntradas(e, f, {TEMPORAL});
  }

  function ConListo(d: Disco, x: Nodo): Disco {
    (d - {TEMPORAL})[LISTO := x]
  }

  lemma SinListoIgual(d: Disco, e: Disco, x: Nodo)
    requires e - {LISTO} == d - {LISTO} && LISTO !in e
    ensures ConListo(e, x) == ConListo(d, x)
  {
    PorEntradas(d, e, {LISTO});
    assert ConListo(e, x).Keys == ConListo(d, x).Keys;
  }

  lemma ComidaBien(d: Disco, e: Disco)
    requires Bien(d) && Comida(d, e)
    ensures Bien(e) && Vivas(e) == Vivas(d)
  {
    NombresAparte();
    assert d - {TEMPORAL} - {LISTO} == d - {TEMPORAL, LISTO} && e - {TEMPORAL} - {LISTO} == e - {TEMPORAL, LISTO};
    PorEntradas(d, e, {TEMPORAL, LISTO});
  }

  lemma ListoPuesto(d: Disco, nuevo: Disco, e: Disco)
    requires forall n <- nuevo :: n in VIVOS
    requires e == ConListo(d, Carpeta(nuevo[FASE_A := Archivo("")]))
    ensures Bien(e) && Marcada(e) && Futuro(e) == nuevo && Vivas(e) == Vivas(d)
  {
    NombresAparte();
    assert nuevo[FASE_A := Archivo("")] - {FASE_A} == nuevo;
  }

  lemma UnaMenos(m: Disco, n: string)
    requires n in m
    ensures |(m - {n}).Keys| + 1 == |m.Keys|
  {
    assert (m - {n}).Keys == m.Keys - {n};
  }

  lemma UnaFalta(d: Disco, e: Disco) returns (n: string)
    requires LISTO in d && d[LISTO].Carpeta? && |d[LISTO].m.Keys| > 1
    requires e - {LISTO} == d - {LISTO} && (LISTO in e ==> EsResto(e[LISTO], d[LISTO]))
    requires LISTO in e ==> |e[LISTO].m.Keys| + 1 == |d[LISTO].m.Keys|
    requires LISTO in e
    ensures n in d[LISTO].m && e == Roida(d, {n})
  {
    var a, b := e[LISTO].m, d[LISTO].m;
    assert |b.Keys - a.Keys| == 1 by { assert b.Keys == a.Keys + (b.Keys - a.Keys); }
    n :| n in b.Keys - a.Keys;
    assert |b.Keys - a.Keys - {n}| == 0;
    assert a == b - {n};
    PorEntradas(d, e, {LISTO});
  }

  /** A restore over the disk `antes` is complete in the terms of its owner: the live entries
      are exactly the restored set, what is not replaced did not move, and every replaced
      entry is whole in exactly one new `previo-*` folder. */
  ghost predicate Restaurada(antes: Disco, nuevo: Disco, d: Disco) {
    && Vivas(d) == nuevo
    && (forall n <- antes :: n !in VIVOS && n != TEMPORAL && n != LISTO ==> n in d && d[n] == antes[n])
    && (forall v <- Vivas(antes) :: GuardadaUnaVez(antes, d, v))
  }

  lemma AvanceEsRestaurada(antes: Disco, d0: Disco, nuevo: Disco, d: Disco)
    requires Avance(d0, d) && LISTO !in d && Marcada(d0) && Futuro(d0) == nuevo && Vivas(d0) == Vivas(antes)
    requires d0 == ConListo(antes, d0[LISTO])
    ensures Restaurada(antes, nuevo, d)
  {
    NombresAparte();
    AvanceTerminado(d0, d);
    forall v <- Vivas(antes) ensures GuardadaUnaVez(antes, d, v) {
      assert v in Vivas(d0) && Vivas(d0)[v] == Vivas(antes)[v];
      GuardadaDesde(antes, d0, d, v);
    }
  }

  lemma GuardadaDesde(antes: Disco, d0: Disco, d: Disco, v: string)
    requires Avance(d0, d) && LISTO !in d && d0.Keys == antes.Keys - {TEMPORAL} + {LISTO}
    requires v in antes && v in d0 && d0[v] == antes[v] && GuardadaUnaVez(d0, d, v)
    ensures GuardadaUnaVez(antes, d, v)
  {
    NombresAparte();
    var p :| GuardadaEn(d0, d, v, p) && forall n :: Contiene(d0, d, v, n) ==> n == p;
    assert forall n :: Nuevo(antes, d, n) ==> Nuevo(d0, d, n);
    assert forall n :: Contiene(antes, d, v, n) ==> Contiene(d0, d, v, n);
    assert GuardadaEn(antes, d, v, p);
  }

  lemma MenosUna(previo: Disco, m: Disco, faltan: set<string>, n: string)
    requires n in m && n in faltan
    ensures (previo + (m - faltan))[n := m[n]] == previo + (m - (faltan - {n}))
  {
  }

  lemma PocasEntradas(m: Disco)
    requires forall n <- m :: n in VIVOS || n == FASE_A
    ensures FASE_A !in m ==> |m.Keys| <= |VIVOS|
  {
    if FASE_A !in m {
      CuantosDe(m.Keys, VIVOS);
    }
  }

  lemma {:induction false} CuantosDe(s: set<string>, q: seq<string>)
    requires forall n <- s :: n in q
    ensures |s| <= |q|
  {
    if s == {} {
    } else {
      var u := q[|q| - 1];
      assert forall n <- s - {u} :: n in q[..|q| - 1];
      CuantosDe(s - {u}, q[..|q| - 1]);
      assert |s| <= |s - {u}| + 1;
    }
  }
}
