/** The ledger of a 2-of-2 box: the scan that walks towards the tip and back in small chunks
    (`siguiente_trozo`, `sumar_atras`, the `CajaScan` arm of `tomar_listo` in caja.rs). */
module CajaLibro {
  import opened Base

  const LOOKBACK := 40
  const PASO_SCAN := 8
  const PASO_ATRAS_CAJA := 200
  const MAX_HISTORIA := 20_000

  /** `LibroCaja` without its outputs. */
  datatype Caja = Caja(desde: u64, hasta: u64, listo: bool, retro: u64)

  datatype Trozo = Trozo(desde: u64, hasta: u64, atras: bool)

  /** The next inclusive range to scan. */
  function SiguienteTrozo(tip: u64, c: Caja): Option<Trozo> {
    if !c.listo then Some(Trozo(RestaTope(tip, LOOKBACK), tip, false))
    else if c.hasta < tip then
      var d := SumaTope(c.hasta, 1);
      Some(Trozo(d, Min(SumaTope(d, PASO_SCAN - 1), tip), false))
    else if c.retro > 0 && c.desde > 0 then
      var n := Min(Min(c.retro, PASO_SCAN), c.desde);
      var h := c.desde - 1;
      Some(Trozo(h + 1 - n, h, true))
    else None
  }

  /** How many blocks one more request for older history adds. */
  function SumarAtras(tip: u64, c: Caja): u64 {
    if c.listo && c.desde == 0 then 0
    else
      var profundidad := if c.listo then SumaTope(RestaTope(tip, c.desde), c.retro) else SumaTope(LOOKBACK, c.retro);
      Min(RestaTope(MAX_HISTORIA, profundidad), PASO_ATRAS_CAJA)
  }

  /** The ledger after a chunk came back. */
  function Mirado(c: Caja, t: Trozo): Caja {
    if t.atras then
      c.(desde := t.desde, retro := RestaTope(c.retro, SumaTope(RestaTope(t.hasta, t.desde), 1)))
    else if !c.listo then
      c.(desde := t.desde, hasta := t.hasta, listo := true)
    else
      c.(hasta := Max(t.hasta, c.hasta))
  }

  class LibroCaja {
    var desde: u64
    var hasta: u64
    var listo: bool
    var retro: u64
    /** The blocks that were read. */
    ghost var vistos: set<int>

    /** The interval of the ledger is exactly what was read. */
    ghost predicate Valida()
      reads this
    {
      Entera(Marcha(Valor(), None, vistos))
    }

    function Valor(): Caja
      reads this
    {
      Caja(desde, hasta, listo, retro)
    }

    constructor ()
      ensures Valor() == Caja(0, 0, false, 0) && Valida()
    {
      desde, hasta, listo, retro, vistos := 0, 0, false, 0, {};
    }

    /** The `CajaScan` arm, for a chunk that was read without error: if it continues what was
        read, the interval is again exactly the blocks read. */
    method TomarTrozo(t: Trozo)
      modifies this
      ensures Valor() == Mirado(old(Valor()), t) && vistos == old(vistos) + Rango(t.desde, t.hasta)
      ensures old(Valida()) && Encaja(t, old(Valor()), old(vistos)) ==> Valida()
    {
      ghost var antes := Marcha(Valor(), Some(t), vistos);
      if Entera(antes) {
        SigueEntera(antes, Llega);
      }
      vistos := vistos + Rango(t.desde, t.hasta);
      var eraNuevo := !listo;
      if t.atras {
        desde := t.desde;
        var n := SumaTope(RestaTope(t.hasta, t.desde), 1);
        retro := RestaTope(retro, n);
      } else if eraNuevo {
        desde := t.desde;
        hasta := t.hasta;
        listo := true;
      } else {
        hasta := Max(t.hasta, hasta);
      }
    }

    /** `pedir_atras_caja`: false is the "nothing more to look at" answer. One request asks for at
        most one step, never passes the cap, and is refused exactly there or at block zero. */
    method PedirAtras(tip: u64) returns (ok: bool)
      modifies this
      ensures Valor() == old(Valor()).(retro := retro) && old(retro) <= retro <= old(retro) + PASO_ATRAS_CAJA
      ensures vistos == old(vistos) && (old(Valida()) ==> Valida())
      ensures Valor() == Sigue(Marcha(old(Valor()), None, vistos), PideAtras(tip)).caja
      ensures var p := Profundidad(old(Valor()), tip);
        p <= U64_MAX ==>
          && (ok <==> !(listo && desde == 0) && p < MAX_HISTORIA)
          && Profundidad(Valor(), tip) <= Max(p, MAX_HISTORIA)
    {
      if Profundidad(Valor(), tip) <= U64_MAX {
        PedirNoPasaElTope(Valor(), tip);
      }
      var n := SumarAtras(tip, Valor());
      if n == 0 {
        return false;
      }
      retro := SumaTope(retro, n);
      return true;
    }

    /** Chunk after chunk until none is left: the walk ends at the tip, with its start lowered
        by what was asked, and is covered exactly when that many blocks exist. */
    method Recorrer(tip: u64)
      requires Valida()
      modifies this
      ensures Valida() && Valor() == Recorrida(old(Valor()), tip) && listo
      ensures old(listo) ==> (Cubierta(Valor(), tip) <==> old(retro) <= old(desde))
      ensures !old(listo) ==> (Cubierta(Valor(), tip) <==> old(retro) <= RestaTope(tip, LOOKBACK))
    {
      if listo {
        RecorridaLlega(Valor(), tip);
      } else {
        PrimeraRecorrida(Valor(), tip);
      }
      var t := SiguienteTrozo(tip, Valor());
      while t.Some?
        invariant Valida() && t == SiguienteTrozo(tip, Valor())
        invariant Recorrida(Valor(), tip) == Recorrida(old(Valor()), tip)
        decreases !listo, Falta(Valor(), tip)
      {
        SigueEntera(Marcha(Valor(), None, vistos), Lanza(tip));
        TomarTrozo(t.value);
        t := SiguienteTrozo(tip, Valor());
      }
    }
  }

  // ----- any run of the scan

  /** The ledger, the chunk in flight and the blocks that have been read. */
  datatype Marcha = Marcha(caja: Caja, vuelo: Option<Trozo>, vistos: set<int>)

  /** A chunk is launched at the tip known then; it comes back or fails; the user may ask for
      older history at any moment. */
  datatype Suceso = Lanza(tip: u64) | Llega | Falla | PideAtras(tip: u64)

  predicate Entre(b: int, desde: int, hasta: int) {
    desde <= b <= hasta
  }

  function Rango(desde: int, hasta: int): set<int> {
    set b | desde <= b <= hasta && Entre(b, desde, hasta)
  }

  function Sigue(m: Marcha, s: Suceso): Marcha {
    match s
    case Lanza(tip) => if m.vuelo.None? then m.(vuelo := SiguienteTrozo(tip, m.caja)) else m
    case Llega =>
      if m.vuelo.None? then m
      else Marcha(Mirado(m.caja, m.vuelo.value), None, m.vistos + Rango(m.vuelo.value.desde, m.vuelo.value.hasta))
    case Falla => m.(vuelo := None)
    case PideAtras(tip) => m.(caja := m.caja.(retro := SumaTope(m.caja.retro, SumarAtras(tip, m.caja))))
  }

  function Tras(ss: seq<Suceso>): Marcha {
    if |ss| == 0 then Marcha(Caja(0, 0, false, 0), None, {}) else Sigue(Tras(ss[..|ss| - 1]), ss[|ss| - 1])
  }

  /** A chunk continues what was read: it is new, touches its end, and is short unless it is
      the first look. */
  predicate Encaja(t: Trozo, c: Caja, vistos: set<int>) {
    && t.desde <= t.hasta
    && Rango(t.desde, t.hasta) !! vistos
    && (!c.listo ==> !t.atras && t.hasta - t.desde <= LOOKBACK)
    && (c.listo && !t.atras ==> t.desde == c.hasta + 1)
    && (c.listo && t.atras ==> t.hasta + 1 == c.desde)
    && (c.listo ==> t.hasta - t.desde + 1 <= PASO_SCAN)
  }

  predicate Entera(m: Marcha) {
    && m.vistos == (if m.caja.listo then Rango(m.caja.desde, m.caja.hasta) else {})
    && (m.caja.listo ==> m.caja.desde <= m.caja.hasta)
    && (m.vuelo.Some? ==> Encaja(m.vuelo.value, m.caja, m.vistos))
  }

  lemma SigueEntera(m: Marcha, s: Suceso)
    requires Entera(m)
    ensures Entera(Sigue(m, s))
  {
    if s.Llega? && m.vuelo.Some? {
      var t, c := m.vuelo.value, m.caja;
      if c.listo && t.atras {
        assert Rango(c.desde, c.hasta) + Rango(t.desde, t.hasta) == Rango(t.desde, c.hasta);
      } else if c.listo {
        assert Rango(c.desde, c.hasta) + Rango(t.desde, t.hasta) == Rango(c.desde, t.hasta);
      }
    }
  }

  /** In every run, with any moving tip, failures and requests in between, the blocks read are
      exactly the interval the ledger says, and every chunk in flight extends it by at most
      eight new blocks next to it. */
  lemma {:induction false} LoMiradoEsUnIntervalo(ss: seq<Suceso>)
    ensures var m := Tras(ss);
      && m.vistos == (if m.caja.listo then Rango(m.caja.desde, m.caja.hasta) else {})
      && (m.vuelo.Some? ==> Encaja(m.vuelo.value, m.caja, m.vistos))
    ensures Entera(Tras(ss))
    decreases |ss|
  {
    if |ss| == 0 {
    } else {
      LoMiradoEsUnIntervalo(ss[..|ss| - 1]);
      SigueEntera(Tras(ss[..|ss| - 1]), ss[|ss| - 1]);
    }
  }

  // ----- the walk at a fixed tip

  /** What the walk still has to read. */
  function Falta(c: Caja, tip: u64): nat {
    if !c.listo then 1 + U64_MAX else (if c.hasta < tip then tip - c.hasta else 0) + Min(c.retro, c.desde)
  }

  /** Scanning chunk after chunk until there is none left. */
  function Recorrida(c: Caja, tip: u64): Caja
    decreases !c.listo, Falta(c, tip)
  {
    match SiguienteTrozo(tip, c)
    case None => c
    case Some(t) => Recorrida(Mirado(c, t), tip)
  }

  predicate Cubierta(c: Caja, tip: u64) {
    c.listo && c.hasta >= tip && c.retro == 0
  }

  /** The walk ends at the tip, lowers its start by exactly what was asked or down to block
      zero, and is covered if and only if what was asked exists. */
  lemma {:induction false} RecorridaLlega(c: Caja, tip: u64)
    requires c.listo
    ensures Recorrida(c, tip) ==
      Caja(c.desde - Min(c.retro, c.desde), Max(c.hasta, tip), true, c.retro - Min(c.retro, c.desde))
    ensures Cubierta(Recorrida(c, tip), tip) <==> c.retro <= c.desde
    decreases Falta(c, tip)
  {
    match SiguienteTrozo(tip, c)
    case None =>
    case Some(t) => RecorridaLlega(Mirado(c, t), tip);
  }

  /** From the first look on: forty blocks, and then whatever was asked before it. */
  lemma PrimeraRecorrida(c: Caja, tip: u64)
    requires !c.listo
    ensures var inicio := RestaTope(tip, LOOKBACK);
      && Recorrida(c, tip) == Caja(inicio - Min(c.retro, inicio), tip, true, c.retro - Min(c.retro, inicio))
      && (Cubierta(Recorrida(c, tip), tip) <==> c.retro <= inicio)
  {
    RecorridaLlega(Mirado(c, SiguienteTrozo(tip, c).value), tip);
  }

  // ----- the cap on history

  /** How deep below the tip the ledger has read or been asked to read. */
  function Profundidad(c: Caja, tip: u64): int {
    if c.listo then RestaTope(tip, c.desde) + c.retro else LOOKBACK + c.retro
  }

  /** A request never takes the depth over the cap, asks for at most one step, and is refused
      exactly when the cap or block zero is reached. */
  lemma PedirNoPasaElTope(c: Caja, tip: u64)
    requires Profundidad(c, tip) <= U64_MAX
    ensures var n := SumarAtras(tip, c);
      && n <= PASO_ATRAS_CAJA
      && Profundidad(c.(retro := SumaTope(c.retro, n)), tip) <= Max(Profundidad(c, tip), MAX_HISTORIA)
      && (n == 0 <==> (c.listo && c.desde == 0) || Profundidad(c, tip) >= MAX_HISTORIA)
  {
  }

  /** A run in which the tip does not move. */
  predicate EnPunta(ss: seq<Suceso>, tip: u64) {
    forall k :: 0 <= k < |ss| ==> (ss[k].Lanza? || ss[k].PideAtras? ==> ss[k].tip == tip)
  }

  /** Below the cap, and a backward chunk in flight was asked for. */
  predicate BajoElTope(m: Marcha, tip: u64) {
    && Profundidad(m.caja, tip) <= MAX_HISTORIA
    && (m.caja.listo ==> m.caja.desde <= tip)
    && (m.vuelo.Some? && m.caja.listo && m.vuelo.value.atras ==>
          m.vuelo.value.hasta - m.vuelo.value.desde + 1 <= m.caja.retro)
    && (m.vuelo.Some? && !m.caja.listo ==> m.vuelo.value == Trozo(RestaTope(tip, LOOKBACK), tip, false))
  }

  lemma SigueBajoElTope(m: Marcha, s: Suceso, tip: u64)
    requires Entera(m) && BajoElTope(m, tip) && (s.Lanza? || s.PideAtras? ==> s.tip == tip)
    ensures BajoElTope(Sigue(m, s), tip)
  {
    if s.PideAtras? {
      PedirNoPasaElTope(m.caja, tip);
    }
  }

  /** However often older history is asked for, and whatever comes back or fails in between, at
      a given tip the ledger never reaches deeper than 20,000 blocks. */
  lemma {:induction false} NuncaPasaElTope(ss: seq<Suceso>, tip: u64)
    requires EnPunta(ss, tip)
    ensures Profundidad(Tras(ss).caja, tip) <= MAX_HISTORIA && BajoElTope(Tras(ss), tip)
    decreases |ss|
  {
    if |ss| == 0 {
    } else {
      LoMiradoEsUnIntervalo(ss[..|ss| - 1]);
      NuncaPasaElTope(ss[..|ss| - 1], tip);
      SigueBajoElTope(Tras(ss[..|ss| - 1]), ss[|ss| - 1], tip);
    }
  }

  /** Reading the chunks that were asked for does not deepen the request. */
  lemma MirarNoAhonda(c: Caja, tip: u64)
    requires SiguienteTrozo(tip, c).Some? && (!c.listo ==> tip >= LOOKBACK) && (c.listo ==> c.desde <= tip)
    ensures Profundidad(Mirado(c, SiguienteTrozo(tip, c).value), tip) == Profundidad(c, tip)
  {
  }
}
