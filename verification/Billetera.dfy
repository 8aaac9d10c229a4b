/** The personal wallet's ledger (`Libro`, `fundir_entradas`, `marcar_gastadas`,
    `vista_billetera` in caja.rs): scan batches and spent marks, in any order. */
module Billetera {
  import opened Base

  datatype Entrada = Entrada(altura: u64, monto: u64, tx: string, indice: u64, raw: string) {
    function Ref(): (string, u64) {
      (tx, indice)
    }
  }

  type Ref = (string, u64)

  datatype Libro = Libro(entradas: seq<Entrada>, gastadas: seq<Ref>)

  predicate Figura(es: seq<Entrada>, r: Ref) {
    exists e <- es :: e.Ref() == r
  }

  /** One scanned output: no zero amounts, nothing spent, nothing twice. */
  function FundirUna(l: Libro, e: Entrada): Libro {
    if e.monto == 0 || e.Ref() in l.gastadas || Figura(l.entradas, e.Ref()) then l
    else l.(entradas := l.entradas + [e])
  }

  function Fundir(l: Libro, es: seq<Entrada>): Libro {
    if |es| == 0 then l else FundirUna(Fundir(l, es[..|es| - 1]), es[|es| - 1])
  }

  function AgregarMarcas(gs: seq<Ref>, us: seq<Ref>): seq<Ref> {
    if |us| == 0 then gs
    else
      var h, u := AgregarMarcas(gs, us[..|us| - 1]), us[|us| - 1];
      if u in h then h else h + [u]
  }

  /** The outputs whose reference is not in `us`, in order (`retain`, and the filter on load). */
  function Quedan(es: seq<Entrada>, us: seq<Ref>): seq<Entrada> {
    if |es| == 0 then []
    else
      var q, e := Quedan(es[..|es| - 1], us), es[|es| - 1];
      if e.Ref() in us then q else q + [e]
  }

  function Marcar(l: Libro, us: seq<Ref>): Libro {
    Libro(Quedan(l.entradas, us), AgregarMarcas(l.gastadas, us))
  }

  /** What saving and loading gives back. */
  function Recargado(l: Libro): Libro {
    l.(entradas := Quedan(l.entradas, l.gastadas))
  }

  class LibroLocal {
    var entradas: seq<Entrada>
    var gastadas: seq<Ref>

    constructor ()
      ensures Libro(entradas, gastadas) == Libro([], [])
    {
      entradas, gastadas := [], [];
    }

    method YaGastada(tx: string, indice: u64) returns (si: bool)
      ensures si == ((tx, indice) in gastadas)
    {
      var k := 0;
      while k < |gastadas|
        invariant 0 <= k <= |gastadas| && (tx, indice) !in gastadas[..k]
      {
        if gastadas[k] == (tx, indice) {
          return true;
        }
        k := k + 1;
      }
      return false;
    }

    method FundirEntradas(nuevas: seq<Entrada>)
      modifies this
      ensures Libro(entradas, gastadas) == Fundir(old(Libro(entradas, gastadas)), nuevas)
    {
      var k := 0;
      while k < |nuevas|
        invariant 0 <= k <= |nuevas|
        invariant Libro(entradas, gastadas) == Fundir(old(Libro(entradas, gastadas)), nuevas[..k])
      {
        var nueva := nuevas[k];
        assert nuevas[..k + 1][..k] == nuevas[..k];
        k := k + 1;
        if nueva.monto == 0 {
          continue;
        }
        var gastada := YaGastada(nueva.tx, nueva.indice);
        if gastada {
          continue;
        }
        if Figura(entradas, nueva.Ref()) {
          continue;
        }
        entradas := entradas + [nueva];
      }
      assert nuevas[..k] == nuevas;
    }

    method MarcarGastadas(usadas: seq<Ref>)
      modifies this
      ensures Libro(entradas, gastadas) == Marcar(old(Libro(entradas, gastadas)), usadas)
    {
      var k := 0;
      while k < |usadas|
        invariant 0 <= k <= |usadas| && entradas == old(entradas)
        invariant gastadas == AgregarMarcas(old(gastadas), usadas[..k])
      {
        assert usadas[..k + 1][..k] == usadas[..k];
        var ya := YaGastada(usadas[k].0, usadas[k].1);
        if !ya {
          gastadas := gastadas + [usadas[k]];
        }
        k := k + 1;
      }
      assert usadas[..k] == usadas;
      entradas := Quedan(entradas, usadas);
    }

    /** The figures of the wallet page: total, free and locked. */
    method VistaBilletera(tip: Option<u64>) returns (total: u64, libre: u64, trabado: u64)
      ensures total == Tope(Suma(entradas)) && libre == Tope(Suma(Sueltas(entradas, tip)))
      ensures trabado == RestaTope(total, libre)
    {
      total, libre := 0, 0;
      var k := 0;
      while k < |entradas|
        invariant 0 <= k <= |entradas|
        invariant total == Tope(Suma(entradas[..k])) && libre == Tope(Suma(Sueltas(entradas[..k], tip)))
      {
        var e := entradas[k];
        assert entradas[..k + 1][..k] == entradas[..k];
        total := SumaTope(total, e.monto);
        var suelta := tip.Some? && tip.value >= SumaTope(e.altura, DESBLOQUEO);
        if suelta {
          var s := Sueltas(entradas[..k], tip);
          assert (s + [e])[..|s|] == s;
          libre := SumaTope(libre, e.monto);
        }
        k := k + 1;
      }
      assert entradas[..k] == entradas;
      trabado := RestaTope(total, libre);
    }
  }

  // ----- sums

  const DESBLOQUEO: u64 := 10

  function Tope(n: nat): u64 {
    if n > U64_MAX then U64_MAX else n
  }

  function Suma(es: seq<Entrada>): nat {
    if |es| == 0 then 0 else Suma(es[..|es| - 1]) + es[|es| - 1].monto
  }

  predicate Suelta(e: Entrada, tip: Option<u64>) {
    tip.Some? && tip.value >= SumaTope(e.altura, DESBLOQUEO)
  }

  function Sueltas(es: seq<Entrada>, tip: Option<u64>): seq<Entrada> {
    if |es| == 0 then []
    else
      var q, e := Sueltas(es[..|es| - 1], tip), es[|es| - 1];
      if Suelta(e, tip) then q + [e] else q
  }

  function Trabadas(es: seq<Entrada>, tip: Option<u64>): seq<Entrada> {
    if |es| == 0 then []
    else
      var q, e := Trabadas(es[..|es| - 1], tip), es[|es| - 1];
      if Suelta(e, tip) then q else q + [e]
  }

  lemma {:induction false} SumaDePartes(es: seq<Entrada>, tip: Option<u64>)
    ensures Suma(es) == Suma(Sueltas(es, tip)) + Suma(Trabadas(es, tip))
  {
    if |es| == 0 {
    } else {
      var e := es[|es| - 1];
      SumaDePartes(es[..|es| - 1], tip);
      var q, t := Sueltas(es[..|es| - 1], tip), Trabadas(es[..|es| - 1], tip);
      assert (q + [e])[..|q|] == q && (t + [e])[..|t|] == t;
    }
  }

  /** Free plus locked is always the total shown, and what is shown as locked is the sum of
      the locked outputs as long as the whole wallet fits in 64 bits. */
  lemma LibreMasTrabadoEsTotal(es: seq<Entrada>, tip: Option<u64>)
    ensures var total, libre := Tope(Suma(es)), Tope(Suma(Sueltas(es, tip)));
      && libre + RestaTope(total, libre) == total
      && (Suma(es) <= U64_MAX ==> RestaTope(total, libre) == Suma(Trabadas(es, tip)))
  {
    SumaDePartes(es, tip);
  }

  // ----- the ledger as a set

  datatype Hecho = Lote(es: seq<Entrada>) | Marcas(us: seq<Ref>) | Recarga

  function Tras(hs: seq<Hecho>): Libro {
    if |hs| == 0 then Libro([], [])
    else
      var l := Tras(hs[..|hs| - 1]);
      match hs[|hs| - 1]
      case Lote(es) => Fundir(l, es)
      case Marcas(us) => Marcar(l, us)
      case Recarga => Recargado(l)
  }

  function Conjunto<T>(s: seq<T>): set<T> {
    set x | x in s
  }

  /** Outputs with an amount that any batch delivered. */
  function Entregadas(hs: seq<Hecho>): set<Entrada> {
    if |hs| == 0 then {}
    else Entregadas(hs[..|hs| - 1]) + (if hs[|hs| - 1].Lote? then set e | e in hs[|hs| - 1].es && e.monto > 0 else {})
  }

  function Marcadas(hs: seq<Hecho>): set<Ref> {
    if |hs| == 0 then {}
    else Marcadas(hs[..|hs| - 1]) + (if hs[|hs| - 1].Marcas? then Conjunto(hs[|hs| - 1].us) else {})
  }

  function Refs(es: set<Entrada>): set<Ref> {
    set e | e in es :: e.Ref()
  }

  /** The ledger `l` holds what was delivered (`d`) minus what was marked (`m`), each once. */
  predicate Refina(l: Libro, d: set<Entrada>, m: set<Ref>) {
    && (forall i, j :: 0 <= i < j < |l.entradas| ==> l.entradas[i].Ref() != l.entradas[j].Ref())
    && Conjunto(l.entradas) <= d
    && Refs(Conjunto(l.entradas)) == Refs(d) - m
    && Conjunto(l.gastadas) == m
  }

  lemma FundirUnaRefina(l: Libro, d: set<Entrada>, m: set<Ref>, e: Entrada)
    requires Refina(l, d, m)
    ensures Refina(FundirUna(l, e), if e.monto > 0 then d + {e} else d, m)
  {
    if e.monto > 0 {
      assert Refs(d + {e}) == Refs(d) + {e.Ref()};
      assert e.Ref() in l.gastadas <==> e.Ref() in Conjunto(l.gastadas);
      if Figura(l.entradas, e.Ref()) {
        var x :| x in l.entradas && x.Ref() == e.Ref();
        assert x in Conjunto(l.entradas) && e.Ref() in Refs(Conjunto(l.entradas));
      } else if e.Ref() !in l.gastadas {
        assert Conjunto(l.entradas + [e]) == Conjunto(l.entradas) + {e};
        assert Refs(Conjunto(l.entradas) + {e}) == Refs(Conjunto(l.entradas)) + {e.Ref()};
        forall i | 0 <= i < |l.entradas| ensures l.entradas[i].Ref() != e.Ref() {
          assert l.entradas[i] in l.entradas;
        }
      }
    }
  }

  lemma {:induction false} FundirRefina(l: Libro, d: set<Entrada>, m: set<Ref>, es: seq<Entrada>)
    requires Refina(l, d, m)
    ensures Refina(Fundir(l, es), d + (set e | e in es && e.monto > 0), m)
    decreases |es|
  {
    var nuevas := set e | e in es && e.monto > 0;
    if |es| == 0 {
      assert d + nuevas == d;
    } else {
      var fs, x := es[..|es| - 1], es[|es| - 1];
      var ya := set e | e in fs && e.monto > 0;
      assert es == fs + [x];
      FundirRefina(l, d, m, fs);
      FundirUnaRefina(Fundir(l, fs), d + ya, m, x);
      assert d + nuevas == if x.monto > 0 then d + ya + {x} else d + ya;
    }
  }

  lemma {:induction false} QuedanSon(es: seq<Entrada>, us: seq<Ref>)
    requires forall i, j :: 0 <= i < j < |es| ==> es[i].Ref() != es[j].Ref()
    ensures var q := Quedan(es, us);
      && (forall e :: e in q <==> e in es && e.Ref() !in us)
      && (forall i, j :: 0 <= i < j < |q| ==> q[i].Ref() != q[j].Ref())
      && ((forall e <- es :: e.Ref() !in us) ==> q == es)
  {
    if |es| == 0 {
    } else {
      var fs, x := es[..|es| - 1], es[|es| - 1];
      assert es == fs + [x];
      QuedanSon(fs, us);
      var q := Quedan(fs, us);
      forall i | 0 <= i < |q| ensures q[i].Ref() != x.Ref() {
        assert q[i] in q && q[i] in fs;
      }
    }
  }

  lemma {:induction false} MarcasSon(gs: seq<Ref>, us: seq<Ref>)
    ensures Conjunto(AgregarMarcas(gs, us)) == Conjunto(gs) + Conjunto(us)
    decreases |us|
  {
    if |us| == 0 {
      assert Conjunto(gs) + Conjunto(us) == Conjunto(gs);
    } else {
      var vs, u := us[..|us| - 1], us[|us| - 1];
      assert us == vs + [u];
      MarcasSon(gs, vs);
      var h := AgregarMarcas(gs, vs);
      assert Conjunto(h + [u]) == Conjunto(h) + {u};
      assert u in h <==> u in Conjunto(h);
    }
  }

  lemma MarcarRefina(l: Libro, d: set<Entrada>, m: set<Ref>, us: seq<Ref>)
    requires Refina(l, d, m)
    ensures Refina(Marcar(l, us), d, m + Conjunto(us))
  {
    QuedanSon(l.entradas, us);
    MarcasSon(l.gastadas, us);
    var q := Conjunto(Quedan(l.entradas, us));
    forall r ensures r in Refs(q) <==> r in Refs(d) - (m + Conjunto(us)) {
      if r in Refs(d) - (m + Conjunto(us)) {
        assert r in Refs(Conjunto(l.entradas));
        var e :| e in Conjunto(l.entradas) && e.Ref() == r;
        assert e in q;
      }
      if r in Refs(q) {
        var e :| e in q && e.Ref() == r;
        assert e in Conjunto(l.entradas) && r in Refs(Conjunto(l.entradas));
      }
    }
  }

  lemma RecargaNoCambia(l: Libro, d: set<Entrada>, m: set<Ref>)
    requires Refina(l, d, m)
    ensures Recargado(l) == l
  {
    forall e <- l.entradas ensures e.Ref() !in l.gastadas {
      assert e in Conjunto(l.entradas) && e.Ref() in Refs(Conjunto(l.entradas));
      assert e.Ref() in l.gastadas <==> e.Ref() in Conjunto(l.gastadas);
    }
    QuedanSon(l.entradas, l.gastadas);
  }

  /** After any sequence of batches (overlapping, repeated, reordered), marks and reloads the
      ledger is exactly the delivered outputs minus the marked ones, each of them once. */
  lemma {:induction false} ElLibroEsUnConjunto(hs: seq<Hecho>)
    ensures Refina(Tras(hs), Entregadas(hs), Marcadas(hs))
    ensures forall e <- Tras(hs).entradas :: e.monto > 0 && e in Entregadas(hs) && e.Ref() !in Marcadas(hs)
    decreases |hs|
  {
    if |hs| == 0 {
    } else {
      var gs, h := hs[..|hs| - 1], hs[|hs| - 1];
      ElLibroEsUnConjunto(gs);
      match h
      case Lote(es) =>
        FundirRefina(Tras(gs), Entregadas(gs), Marcadas(gs), es);
        assert Marcadas(hs) == Marcadas(gs);
      case Marcas(us) =>
        MarcarRefina(Tras(gs), Entregadas(gs), Marcadas(gs), us);
        assert Entregadas(hs) == Entregadas(gs);
      case Recarga =>
        RecargaNoCambia(Tras(gs), Entregadas(gs), Marcadas(gs));
        assert Entregadas(hs) == Entregadas(gs) && Marcadas(hs) == Marcadas(gs);
    }
    EntregadasConMonto(hs);
    forall e <- Tras(hs).entradas ensures e in Entregadas(hs) && e.Ref() !in Marcadas(hs) {
      assert e in Conjunto(Tras(hs).entradas) && e.Ref() in Refs(Conjunto(Tras(hs).entradas));
    }
  }

  lemma {:induction false} EntregadasConMonto(hs: seq<Hecho>)
    ensures forall e <- Entregadas(hs) :: e.monto > 0
  {
    if |hs| == 0 {
    } else {
      EntregadasConMonto(hs[..|hs| - 1]);
    }
  }

  // ----- the balance does not depend on the order

  predicate Distintas(a: seq<Entrada>) {
    forall i, j :: 0 <= i < j < |a| ==> a[i] != a[j]
  }

  lemma {:induction false} SumaSin(a: seq<Entrada>, i: nat)
    requires i < |a|
    ensures Suma(a) == Suma(a[..i] + a[i + 1..]) + a[i].monto
    decreases |a|
  {
    var n := |a| - 1;
    if i == n {
      assert a[..i] + a[i + 1..] == a[..n];
    } else {
      SumaSin(a[..n], i);
      var b := a[..i] + a[i + 1..];
      assert a[..n][..i] + a[..n][i + 1..] == b[..|b| - 1];
    }
  }

  lemma {:induction false} SumaPorConjunto(a: seq<Entrada>, b: seq<Entrada>)
    requires Distintas(a) && Distintas(b) && Conjunto(a) == Conjunto(b)
    ensures Suma(a) == Suma(b)
    decreases |a|
  {
    if |a| == 0 {
      assert forall k :: 0 <= k < |b| ==> b[k] in Conjunto(b);
    } else {
      var c, x := a[..|a| - 1], a[|a| - 1];
      assert x in Conjunto(b);
      var i :| 0 <= i < |b| && b[i] == x;
      SumaSin(b, i);
      QuitarUna(b, i);
      assert a == c + [x];
      assert x !in c;
      assert Conjunto(c) == Conjunto(a) - {x};
      SumaPorConjunto(c, b[..i] + b[i + 1..]);
    }
  }

  lemma QuitarUna(b: seq<Entrada>, i: nat)
    requires Distintas(b) && i < |b|
    ensures var d := b[..i] + b[i + 1..]; Distintas(d) && Conjunto(d) == Conjunto(b) - {b[i]}
  {
    var d := b[..i] + b[i + 1..];
    assert forall j :: 0 <= j < |d| ==> d[j] == b[if j < i then j else j + 1];
    forall y <- b | y != b[i] ensures y in d {
      var j :| 0 <= j < |b| && b[j] == y;
      assert d[if j < i then j else j - 1] == y;
    }
    forall y <- d ensures y in b && y != b[i] {
      var j :| 0 <= j < |d| && d[j] == y;
      assert b[if j < i then j else j + 1] == y;
    }
  }

  /** Two wallets that saw the same outputs and the same marks show the same balance, in
      whatever order, overlap and number of scans they saw them. */
  lemma MismoSaldo(hs: seq<Hecho>, gs: seq<Hecho>)
    requires Entregadas(hs) == Entregadas(gs) && Marcadas(hs) == Marcadas(gs)
    requires forall a <- Entregadas(hs), b <- Entregadas(hs) :: a.Ref() == b.Ref() ==> a == b
    ensures Conjunto(Tras(hs).entradas) == Conjunto(Tras(gs).entradas)
    ensures Suma(Tras(hs).entradas) == Suma(Tras(gs).entradas)
  {
    ElLibroEsUnConjunto(hs);
    ElLibroEsUnConjunto(gs);
    MismaEntrada(hs, gs);
    MismaEntrada(gs, hs);
    SumaPorConjunto(Tras(hs).entradas, Tras(gs).entradas);
  }

  lemma MismaEntrada(hs: seq<Hecho>, gs: seq<Hecho>)
    requires Entregadas(hs) == Entregadas(gs) && Marcadas(hs) == Marcadas(gs)
    requires forall a <- Entregadas(hs), b <- Entregadas(hs) :: a.Ref() == b.Ref() ==> a == b
    ensures Conjunto(Tras(hs).entradas) <= Conjunto(Tras(gs).entradas)
  {
    ElLibroEsUnConjunto(hs);
    ElLibroEsUnConjunto(gs);
    forall e <- Conjunto(Tras(hs).entradas) ensures e in Conjunto(Tras(gs).entradas) {
      assert e.Ref() in Refs(Conjunto(Tras(hs).entradas));
      assert e.Ref() in Refs(Conjunto(Tras(gs).entradas));
      var x :| x in Conjunto(Tras(gs).entradas) && x.Ref() == e.Ref();
    }
  }
}
