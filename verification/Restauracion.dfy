/** The resumable folder swap that restores a backup (respaldo.rs): `preparar` leaves the new
    files in `restaurar.listo`, and `aplicar_pendiente`, on each start, moves the old ones to
    a `previo-*` folder and the new ones into place, as far as it gets.

    Each rename, removal and mkdir is one atomic step. Two notions carry the proofs: the
    future of a disk, which is the live set that a start would leave if nothing stopped it,
    and the progress from one disk to a later one. */
module Restauracion {


  datatype Nodo = Archivo(texto: string) | Carpeta(m: map<string, Nodo>)

  /** The entries of the data folder. */
  type Disco = map<string, Nodo>

  const TEMPORAL := "restaurar.tmp"
  const LISTO := "restaurar.listo"
  const FASE_A := ".fase-a"

  /** What a backup replaces; everything else in the folder stays. */
  const VIVOS: seq<string> := ["estado.json", "estado.json.tmp", "xmr", "daemon.url", "ultimo-respaldo.json"]

  predicate EsPrevio(n: string) {
    "previo-" <= n
  }

  lemma NombresAparte()
    ensures forall v <- VIVOS :: !EsPrevio(v) && v != LISTO && v != TEMPORAL && v != FASE_A
    ensures !EsPrevio(LISTO) && !EsPrevio(TEMPORAL) && LISTO != TEMPORAL
    ensures forall i, j :: 0 <= i < j < |VIVOS| ==> VIVOS[i] != VIVOS[j]
  {
    assert "previo-"[0] == 'p';
    assert VIVOS[1][|VIVOS[0]|] == '.';
    assert LISTO[10] == 'l' && TEMPORAL[10] == 't';
  }

  /** The live entries: what the application reads. */
  function Vivas(d: Disco): Disco {
    map n | n in d && n in VIVOS :: d[n]
  }

  // ----- what a disk is on its way to

  /** A waiting restore holds live names and perhaps the marker, as `preparar` left it or
      what a cut left of it. */
  predicate Bien(d: Disco) {
    LISTO in d ==> d[LISTO].Carpeta? && forall n <- d[LISTO].m :: n in VIVOS || n == FASE_A
  }

  /** The marker is there: the old entries are still being moved away. */
  predicate Marcada(d: Disco) {
    LISTO in d && d[LISTO].Carpeta? && FASE_A in d[LISTO].m
  }

  /** The entry `v` is still to be replaced. */
  predicate Toca(d: Disco, v: string) {
    LISTO in d && d[LISTO].Carpeta? && (FASE_A in d[LISTO].m || v in d[LISTO].m)
  }

  /** The live set that a start which nothing stops would leave. */
  function Futuro(d: Disco): Disco
    requires Bien(d)
  {
    if LISTO !in d then Vivas(d)
    else
      var m := d[LISTO].m;
      if FASE_A in m then m - {FASE_A}
      else map n | n in d.Keys + m.Keys && n in VIVOS :: if n in m then m[n] else d[n]
  }

  // ----- progress

  /** Entries that a restore does not replace are there, unchanged. */
  ghost predicate Ajenos(d0: Disco, d: Disco) {
    forall n <- d0 :: n !in VIVOS && n != LISTO && n != TEMPORAL ==> n in d && d[n] == d0[n]
  }

  ghost predicate Nuevo(d0: Disco, d: Disco, n: string) {
    n in d && n !in d0 && n !in VIVOS
  }

  /** Every new entry is a `previo-*` folder, and holds old live entries as they were. */
  ghost predicate Previos(d0: Disco, d: Disco) {
    forall n <- d :: Nuevo(d0, d, n) ==>
      EsPrevio(n) && d[n].Carpeta? && forall v <- d[n].m :: v in VIVOS && v in d0 && d[n].m[v] == d0[v]
  }

  ghost predicate Contiene(d0: Disco, d: Disco, v: string, n: string) {
    Nuevo(d0, d, n) && d[n].Carpeta? && v in d[n].m
  }

  /** The old entry `v` is kept, with its content, in exactly one new `previo-*` folder. */
  ghost predicate GuardadaUnaVez(d0: Disco, d: Disco, v: string) {
    exists n :: GuardadaEn(d0, d, v, n) && forall n' :: Contiene(d0, d, v, n') ==> n' == n
  }

  ghost predicate GuardadaEn(d0: Disco, d: Disco, v: string, n: string) {
    Contiene(d0, d, v, n) && EsPrevio(n) && v in d0 && d[n].m[v] == d0[v]
  }

  /** The live entry `v` is where it was, and nowhere else. */
  ghost predicate Quieta(d0: Disco, d: Disco, v: string) {
    v in d0 && v in d && d[v] == d0[v] && forall n :: !Contiene(d0, d, v, n)
  }

  /** What became of the live name `v` since the disk `d0`. */
  ghost predicate Suerte(d0: Disco, d: Disco, v: string) {
    && (Toca(d, v) ==> Toca(d0, v) && (v in d ==> Quieta(d0, d, v)))
    && (v in d0 ==> Quieta(d0, d, v) || GuardadaUnaVez(d0, d, v))
    && (v in d0 && Toca(d0, v) && !Toca(d, v) ==> GuardadaUnaVez(d0, d, v))
    && (!Toca(d0, v) ==> (v in d <==> v in d0) && (v in d ==> Quieta(d0, d, v)))
  }

  /** `d` is what starts, cut anywhere, may make of `d0`. */
  ghost predicate Avance(d0: Disco, d: Disco) {
    && Bien(d0) && Bien(d) && Futuro(d) == Futuro(d0)
    && Ajenos(d0, d) && Previos(d0, d)
    && (LISTO in d ==> LISTO in d0)
    && forall v <- VIVOS :: Suerte(d0, d, v)
  }

  lemma SinAvance(d: Disco)
    requires Bien(d)
    ensures Avance(d, d)
  {
  }

  /** A finished restore: the live entries are exactly the future, whatever was replaced is
      whole in exactly one new `previo-*` folder, whatever was not is untouched, and nothing
      else appeared. */
  lemma AvanceTerminado(d0: Disco, d: Disco)
    requires Avance(d0, d) && LISTO !in d
    ensures Vivas(d) == Futuro(d0)
    ensures forall v <- Vivas(d0) :: if Toca(d0, v) then GuardadaUnaVez(d0, d, v) else Quieta(d0, d, v)
    ensures forall n <- d :: n in d0 || n in Futuro(d0) || EsPrevio(n)
  {
    forall n <- d ensures n in d0 || n in Futuro(d0) || EsPrevio(n) {
      if n !in VIVOS && n !in d0 {
        assert Nuevo(d0, d, n);
      } else if n in VIVOS {
        assert n in Vivas(d);
      }
    }
  }

  // ----- the disk after each step

  function ConPrevio(d: Disco, p: string): Disco {
    if p in d then d else d[p := Carpeta(map[])]
  }

  function Movido(d: Disco, n: string, p: string): Disco
    requires n in d && p in d && d[p].Carpeta? && n != p
  {
    (d - {n})[p := Carpeta(d[p].m[n := d[n]])]
  }

  function SinMarca(d: Disco): Disco
    requires LISTO in d && d[LISTO].Carpeta?
  {
    d[LISTO := Carpeta(d[LISTO].m - {FASE_A})]
  }

  function Sacado(d: Disco, n: string): Disco
    requires LISTO in d && d[LISTO].Carpeta? && n in d[LISTO].m && n != LISTO
  {
    d[n := d[LISTO].m[n]][LISTO := Carpeta(d[LISTO].m - {n})]
  }

  /** An entry stays saved when the folders that hold it are still the same. */
  lemma GuardadaSigue(d0: Disco, d: Disco, e: Disco, v: string)
    requires GuardadaUnaVez(d0, d, v)
    requires forall n :: Contiene(d0, e, v, n) <==> Contiene(d0, d, v, n)
    requires forall n :: Contiene(d0, d, v, n) && Contiene(d0, e, v, n) ==> e[n].m[v] == d[n].m[v]
    ensures GuardadaUnaVez(d0, e, v)
  {
    var n :| GuardadaEn(d0, d, v, n) && forall n' :: Contiene(d0, d, v, n') ==> n' == n;
    assert GuardadaEn(d0, e, v, n);
  }

  /** A step that touches no new folder keeps every old entry where it was saved. */
  lemma MismosPrevios(d0: Disco, d: Disco, e: Disco)
    requires Previos(d0, d)
    requires forall n :: Nuevo(d0, e, n) <==> Nuevo(d0, d, n)
    requires forall n :: Nuevo(d0, d, n) && Nuevo(d0, e, n) ==> e[n] == d[n]
    ensures Previos(d0, e)
    ensures forall v, n :: Contiene(d0, e, v, n) <==> Contiene(d0, d, v, n)
    ensures forall v :: GuardadaUnaVez(d0, d, v) ==> GuardadaUnaVez(d0, e, v)
  {
    forall v | GuardadaUnaVez(d0, d, v) ensures GuardadaUnaVez(d0, e, v) {
      GuardadaSigue(d0, d, e, v);
    }
  }

  /** A step on the waiting folder alone, which nothing live depends on. */
  lemma SoloListo(d0: Disco, d: Disco, e: Disco, v: string)
    requires Avance(d0, d) && e - {LISTO} == d - {LISTO} && (LISTO in e ==> LISTO in d) && v in VIVOS
    ensures Previos(d0, e) && Ajenos(d0, e)
    ensures v in e <==> v in d
    ensures v in d ==> e[v] == d[v]
    ensures forall n :: Contiene(d0, e, v, n) <==> Contiene(d0, d, v, n)
    ensures GuardadaUnaVez(d0, d, v) ==> GuardadaUnaVez(d0, e, v)
  {
    NombresAparte();
    assert forall n :: n != LISTO ==> (n in e <==> n in d - {LISTO}) && (n in d <==> n in d - {LISTO});
    assert forall n :: n != LISTO && n in d ==> (d - {LISTO})[n] == d[n] && (n in e ==> (e - {LISTO})[n] == e[n]);
    assert LISTO in d ==> LISTO in d0;
    MismosPrevios(d0, d, e);
  }

  lemma NuevaCarpeta(d0: Disco, d: Disco, p: string)
    requires Avance(d0, d) && EsPrevio(p) && p !in d
    ensures Avance(d0, ConPrevio(d, p)) && Nuevo(d0, ConPrevio(d, p), p)
  {
    NombresAparte();
    var e := ConPrevio(d, p);
    CarpetaFuturo(d, p);
    CarpetaVacia(d0, d, e, p);
    forall v <- VIVOS ensures Suerte(d0, e, v) {
      CarpetaSuerte(d0, d, e, v);
    }
  }

  /** The new folder is the only one more, and it is empty. */
  lemma CarpetaVacia(d0: Disco, d: Disco, e: Disco, p: string)
    requires Ajenos(d0, d) && Previos(d0, d) && EsPrevio(p) && p !in d && p !in VIVOS && p != LISTO && p != TEMPORAL
    requires e == d[p := Carpeta(map[])]
    ensures Ajenos(d0, e) && Previos(d0, e) && Nuevo(d0, e, p)
    ensures forall v, n :: Contiene(d0, e, v, n) <==> Contiene(d0, d, v, n)
  {
    assert p !in d0;
    assert forall n :: Nuevo(d0, e, n) && n != p ==> Nuevo(d0, d, n);
  }

  lemma CarpetaFuturo(d: Disco, p: string)
    requires Bien(d) && p !in d && EsPrevio(p)
    ensures var e := ConPrevio(d, p);
      Bien(e) && Futuro(e) == Futuro(d) && (LISTO in e <==> LISTO in d) && (LISTO in d ==> e[LISTO] == d[LISTO])
  {
    NombresAparte();
  }

  lemma CarpetaSuerte(d0: Disco, d: Disco, e: Disco, v: string)
    requires Suerte(d0, d, v) && v in VIVOS
    requires forall n :: n in d ==> n in e && e[n] == d[n]
    requires forall n :: n in e && (n in VIVOS || n == LISTO) ==> n in d
    requires forall v, n :: Contiene(d0, e, v, n) <==> Contiene(d0, d, v, n)
    ensures Suerte(d0, e, v)
  {
    if GuardadaUnaVez(d0, d, v) {
      GuardadaSigue(d0, d, e, v);
    }
  }

  lemma MovidoPrevios(d0: Disco, d: Disco, v: string, p: string)
    requires Previos(d0, d) && v in VIVOS && v in d && v in d0 && d[v] == d0[v] && Nuevo(d0, d, p) && v != p
    requires d[p].Carpeta? && v !in d[p].m
    ensures var e := Movido(d, v, p);
      && Previos(d0, e)
      && (forall n :: Nuevo(d0, e, n) <==> Nuevo(d0, d, n))
      && (forall x, n :: Contiene(d0, e, x, n) <==> Contiene(d0, d, x, n) || (x == v && n == p))
      && (forall x, n :: Contiene(d0, d, x, n) && Contiene(d0, e, x, n) ==> e[n].m[x] == d[n].m[x])
      && e[p].Carpeta? && v in e[p].m && e[p].m[v] == d0[v]
  {
    var e := Movido(d, v, p);
    assert forall n :: Nuevo(d0, e, n) <==> Nuevo(d0, d, n);
    forall n <- e | Nuevo(d0, e, n)
      ensures EsPrevio(n) && e[n].Carpeta? && forall x <- e[n].m :: x in VIVOS && x in d0 && e[n].m[x] == d0[x]
    {
      assert Nuevo(d0, d, n);
    }
  }

  /** Moving an entry that will be replaced does not change the future. */
  lemma MovidoFuturo(d: Disco, v: string, p: string)
    requires Bien(d) && v in VIVOS && v in d && Toca(d, v) && p in d && d[p].Carpeta? && p != v
    requires p !in VIVOS && p != LISTO
    ensures var e := Movido(d, v, p);
      Bien(e) && Futuro(e) == Futuro(d) && LISTO in e && e[LISTO] == d[LISTO]
  {
    NombresAparte();
  }

  lemma MueveUna(d0: Disco, d: Disco, v: string, p: string)
    requires Avance(d0, d) && v in VIVOS && v in d && Toca(d, v) && Nuevo(d0, d, p)
    ensures d[p].Carpeta? && v != p && v !in d[p].m && p != LISTO
    ensures var e := Movido(d, v, p);
      Avance(d0, e) && Nuevo(d0, e, p) && v !in e && LISTO in e && e[LISTO] == d[LISTO]
  {
    NombresAparte();
    var e := Movido(d, v, p);
    PuedeMover(d0, d, v, p);
    MovidoPrevios(d0, d, v, p);
    MovidoFuturo(d, v, p);
    forall x <- VIVOS ensures Suerte(d0, e, x) {
      assert Suerte(d0, d, x);
      MovidoSuerte(d0, d, v, p, x);
    }
  }

  lemma PuedeMover(d0: Disco, d: Disco, v: string, p: string)
    requires Previos(d0, d) && Suerte(d0, d, v) && v in VIVOS && v in d && Toca(d, v) && Nuevo(d0, d, p)
    ensures v in d0 && d[v] == d0[v] && v != p && d[p].Carpeta? && EsPrevio(p) && v !in d[p].m
  {
    assert !Contiene(d0, d, v, p);
  }

  lemma MovidoSuerte(d0: Disco, d: Disco, v: string, p: string, x: string)
    requires v in d && v in d0 && d[v] == d0[v] && p in d && d[p].Carpeta? && v != p && p != LISTO && v != LISTO
    requires Suerte(d0, d, x) && Suerte(d0, d, v) && Toca(d, v) && EsPrevio(p) && !EsPrevio(x) && x != LISTO
    requires var e := Movido(d, v, p);
      && (forall n :: Nuevo(d0, e, n) <==> Nuevo(d0, d, n))
      && (forall x, n :: Contiene(d0, e, x, n) <==> Contiene(d0, d, x, n) || (x == v && n == p))
      && (forall x, n :: Contiene(d0, d, x, n) && Contiene(d0, e, x, n) ==> e[n].m[x] == d[n].m[x])
      && v in e[p].m && e[p].m[v] == d0[v]
    ensures Suerte(d0, Movido(d, v, p), x)
  {
    var e := Movido(d, v, p);
    if x == v {
      assert GuardadaEn(d0, e, v, p);
      assert GuardadaUnaVez(d0, e, v);
    } else if GuardadaUnaVez(d0, d, x) {
      GuardadaSigue(d0, d, e, x);
    }
  }

  lemma QuitaMarca(d0: Disco, d: Disco)
    requires Avance(d0, d) && Marcada(d) && forall v <- VIVOS :: v !in d
    ensures var e := SinMarca(d);
      Avance(d0, e) && LISTO in e && !Marcada(e) && e[LISTO].m.Keys == d[LISTO].m.Keys - {FASE_A}
  {
    NombresAparte();
    var e := SinMarca(d);
    assert e - {LISTO} == d - {LISTO};
    SinMarcaFuturo(d);
    forall v <- VIVOS ensures Suerte(d0, e, v) {
      SinMarcaSuerte(d0, d, v);
    }
    SoloListo(d0, d, e, VIVOS[0]);
  }

  lemma SinMarcaFuturo(d: Disco)
    requires Bien(d) && Marcada(d) && forall v <- VIVOS :: v !in d
    ensures var e := SinMarca(d);
      Bien(e) && Futuro(e) == Futuro(d) && LISTO in e && !Marcada(e) && e[LISTO].m.Keys == d[LISTO].m.Keys - {FASE_A}
  {
    NombresAparte();
    var e := SinMarca(d);
    assert forall n <- Futuro(e) :: n in e[LISTO].m;
  }

  lemma SinMarcaSuerte(d0: Disco, d: Disco, v: string)
    requires Avance(d0, d) && Marcada(d) && v in VIVOS && v !in d
    ensures Suerte(d0, SinMarca(d), v)
  {
    assert Suerte(d0, d, v);
    assert SinMarca(d) - {LISTO} == d - {LISTO};
    SoloListo(d0, d, SinMarca(d), v);
  }

  lemma SacadoFuturo(d: Disco, n: string)
    requires Bien(d) && LISTO in d && !Marcada(d) && n in d[LISTO].m && n !in d && n != LISTO
    ensures var e := Sacado(d, n);
      Bien(e) && Futuro(e) == Futuro(d) && LISTO in e && !Marcada(e) && e[LISTO].m.Keys == d[LISTO].m.Keys - {n}
  {
    NombresAparte();
    var e, m := Sacado(d, n), d[LISTO].m;
    SacadoEn(d, n, e, m);
    SinMarcaEn(d, m);
    SinMarcaEn(e, m - {n});
    assert Futuro(e) == Futuro(d) by { FuturosIguales(Futuro(e), Futuro(d), d, e, m, n); }
  }

  lemma SacadoEn(d: Disco, n: string, e: Disco, m: Disco)
    requires Bien(d) && LISTO in d && d[LISTO] == Carpeta(m) && FASE_A !in m && n in m && n != LISTO
    requires e == Sacado(d, n)
    ensures Bien(e) && LISTO in e && e[LISTO] == Carpeta(m - {n}) && n in VIVOS && n in e && e[n] == m[n]
    ensures forall x :: x != n && x != LISTO ==> (x in e <==> x in d) && (x in d ==> e[x] == d[x])
  {
  }

  lemma FuturosIguales(f: Disco, g: Disco, d: Disco, e: Disco, m: Disco, n: string)
    requires n in m && n in VIVOS && LISTO !in VIVOS && n in e && e[n] == m[n]
    requires forall x :: x != n && x != LISTO ==> (x in e <==> x in d) && (x in d ==> e[x] == d[x])
    requires forall x :: x in g <==> x in VIVOS && (x in m || x in d)
    requires forall x <- g :: g[x] == if x in m then m[x] else d[x]
    requires forall x :: x in f <==> x in VIVOS && (x in m - {n} || x in e)
    requires forall x <- f :: f[x] == if x in m - {n} then m[x] else e[x]
    ensures f == g
  {
    assert forall x :: x in f <==> x in g;
    assert forall x <- f :: f[x] == g[x];
  }

  /** The future without the marker, name by name. */
  lemma SinMarcaEn(d: Disco, m: Disco)
    requires Bien(d) && LISTO in d && d[LISTO] == Carpeta(m) && FASE_A !in m
    ensures forall n :: n in Futuro(d) <==> n in VIVOS && (n in m || n in d)
    ensures forall n <- Futuro(d) :: Futuro(d)[n] == if n in m then m[n] else d[n]
  {
  }

  lemma SacaUna(d0: Disco, d: Disco, n: string)
    requires Avance(d0, d) && LISTO in d && !Marcada(d) && n in d[LISTO].m && n !in d && n in VIVOS && n != LISTO
    ensures var e := Sacado(d, n);
      Avance(d0, e) && LISTO in e && !Marcada(e) && e[LISTO].m.Keys == d[LISTO].m.Keys - {n}
  {
    NombresAparte();
    var e := Sacado(d, n);
    SacadoFuturo(d, n);
    SacadoPrevios(d0, d, e, n);
    forall v <- VIVOS ensures Suerte(d0, e, v) {
      SacadoSuerte(d0, d, e, n, v);
    }
  }

  lemma SacadoPrevios(d0: Disco, d: Disco, e: Disco, n: string)
    requires Ajenos(d0, d) && Previos(d0, d) && LISTO in d && d[LISTO].Carpeta? && n in d[LISTO].m && n in VIVOS
    requires LISTO !in VIVOS && LISTO in d0 && e == Sacado(d, n)
    ensures Ajenos(d0, e) && Previos(d0, e)
    ensures forall v, x :: Contiene(d0, e, v, x) <==> Contiene(d0, d, v, x)
    ensures forall v :: GuardadaUnaVez(d0, d, v) ==> GuardadaUnaVez(d0, e, v)
  {
    assert forall x :: Nuevo(d0, e, x) <==> Nuevo(d0, d, x);
    MismosPrevios(d0, d, e);
  }

  lemma SacadoSuerte(d0: Disco, d: Disco, e: Disco, n: string, v: string)
    requires Suerte(d0, d, v) && LISTO in d && d[LISTO].Carpeta? && !Marcada(d) && n in d[LISTO].m && n !in d
    requires n in VIVOS && v in VIVOS && LISTO !in VIVOS && FASE_A !in VIVOS && e == Sacado(d, n)
    requires forall x :: Contiene(d0, e, v, x) <==> Contiene(d0, d, v, x)
    requires GuardadaUnaVez(d0, d, v) ==> GuardadaUnaVez(d0, e, v)
    ensures Suerte(d0, e, v)
  {
  }

  lemma BorraListo(d0: Disco, d: Disco)
    requires Avance(d0, d) && LISTO in d && d[LISTO] == Carpeta(map[])
    ensures Avance(d0, d - {LISTO})
  {
    NombresAparte();
    var e := d - {LISTO};
    assert Futuro(e) == Futuro(d);
    forall v <- VIVOS ensures Suerte(d0, e, v) {
      assert Suerte(d0, d, v);
      SoloListo(d0, d, e, v);
    }
    SoloListo(d0, d, e, VIVOS[0]);
  }

  /** Clearing the staging folder, whole or in part, changes nothing that counts. */
  lemma TemporalNoImporta(d: Disco, e: Disco)
    requires Bien(d) && e - {TEMPORAL} == d - {TEMPORAL} && (TEMPORAL in e ==> TEMPORAL in d)
    ensures Avance(d, e) && Vivas(e) == Vivas(d) && (LISTO in e <==> LISTO in d)
  {
    NombresAparte();
    assert forall n :: n != TEMPORAL ==> (n in e <==> n in d - {TEMPORAL}) && (n in d <==> n in d - {TEMPORAL});
    assert forall n :: n != TEMPORAL && n in d ==> (d - {TEMPORAL})[n] == d[n] && (e - {TEMPORAL})[n] == e[n];
    SoloTemporal(d, e);
    forall v <- VIVOS ensures Suerte(d, e, v) {
      SinNadaNuevo(d, e, v);
    }
  }

  lemma SoloTemporal(d: Disco, e: Disco)
    requires Bien(d) && TEMPORAL !in VIVOS && (TEMPORAL in e ==> TEMPORAL in d)
    requires forall n :: n != TEMPORAL ==> (n in e <==> n in d) && (n in d ==> e[n] == d[n])
    ensures Bien(e) && Vivas(e) == Vivas(d) && Futuro(e) == Futuro(d)
    ensures forall n :: !Nuevo(d, e, n)
  {
    assert LISTO in e <==> LISTO in d;
    assert Vivas(e) == Vivas(d);
  }

  lemma SinNadaNuevo(d: Disco, e: Disco, v: string)
    requires v in VIVOS && LISTO !in VIVOS && forall n :: !Nuevo(d, e, n)
    requires forall n :: n in VIVOS || n == LISTO ==> (n in e <==> n in d) && (n in d ==> e[n] == d[n])
    ensures Suerte(d, e, v)
  {
    assert Toca(e, v) <==> Toca(d, v);
  }
}
