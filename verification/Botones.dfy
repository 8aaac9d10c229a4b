/** The single rule that says which buttons a stage shows (`acciones_partida_con`,
    `traba_partida` and `precio_para_encerrar` in caja.rs), and its agreement with the
    deal's state machine. */
module Botones {
  import opened Base
  import opened Texto
  import opened Precio
  import opened Partidas
  import opened Obras
  import opened Acciones

  // ----- the 10-block lock of a funded stage

  const DESBLOQUEO: u64 := 10

  datatype Traba = Libre | SinBloque | Faltan(faltan: Option<u64>, libre: u64)

  /** `altura` is the lowest block where the box saw the funding, `tip` the last known block. */
  function TrabaPartida(p: Partida, altura: Option<u64>, tip: Option<u64>): Traba {
    if !(p.estado.Encerrada? || p.estado.EnTrato?) then Libre
    else if p.fondeoTxid.None? || p.pagoTxid.Some? then Libre
    else match altura
      case None => SinBloque
      case Some(h) =>
        var libre := SumaTope(h, DESBLOQUEO);
        match tip
        case Some(t) => if t >= libre then Libre else Faltan(Some(libre - t), libre)
        case None => Faltan(None, libre)
  }

  /** A funded stage is blocked exactly while its block is unknown or fewer than ten blocks
      deep; what is missing is counted right; and a freed stage stays free as the tip grows. */
  lemma TrabaExacta(p: Partida, altura: Option<u64>, tip: Option<u64>, despues: u64)
    requires altura.Some? ==> altura.value + DESBLOQUEO <= U64_MAX
    ensures TrabaPartida(p, altura, tip) != Libre <==>
      && (p.estado.Encerrada? || p.estado.EnTrato?) && p.fondeoTxid.Some? && p.pagoTxid.None?
      && (altura.None? || tip.None? || tip.value < altura.value + DESBLOQUEO)
    ensures TrabaPartida(p, altura, tip) == Libre && tip.Some? && tip.value <= despues ==>
      TrabaPartida(p, altura, Some(despues)) == Libre
    ensures var t := TrabaPartida(p, altura, tip);
      t.Faltan? && t.faltan.Some? ==>
        tip.Some? && t.libre == tip.value + t.faltan.value
        && TrabaPartida(p, altura, Some(t.libre)) == Libre
        && TrabaPartida(p, altura, Some(t.libre - 1)) != Libre
  {
  }

  // ----- the price of a lock

  datatype Cotizacion = Cotizacion(centavosPorXmr: u64, fuente: string, cuando: int)

  const MAX_EDAD_FIJAR_SEG := 1800

  /** `ultima` is the last price known; it must not be older than half an hour. */
  function PrecioParaEncerrar(o: Obra, i: nat, ultima: Option<Cotizacion>, ahora: int)
    : Result<Option<PrecioFijado>, string>
  {
    if !o.moneda.Usd? then Ok(None)
    else if i >= |o.partidas| then Err("no está esa partida")
    else if ultima.None? || Max(ahora - ultima.value.cuando, 0) > MAX_EDAD_FIJAR_SEG then Err("sin-precio")
    else
      var q := ultima.value;
      match Fijar(o.partidas[i].Capital(o.garantia), q.centavosPorXmr, q.fuente, q.cuando)
      case Ok(p) => Ok(Some(p))
      case Err(_) => Err("sin-precio")
  }

  // ----- what the engine is doing

  datatype EnCurso = Nada | FondeoArmando | FondeoEnRed | PagoFirmando | PagoEnRed {
    function Rango(): nat {
      match this
      case Nada => 0
      case FondeoArmando => 1
      case FondeoEnRed => 2
      case PagoFirmando => 3
      case PagoEnRed => 4
    }
  }

  datatype Aviso =
    | Armando | Fondeando | EsperandoFondeo(tx: string) | Gastando | EsperandoPago(tx: string) | SinOtro
    | SinSemilla | BuscandoMonedas | EsperandoPropuesta | EsperandoContratista | Trabadas | SinSaldo | SinCaja
    | SinSaldoCaja | BuscandoCaja | TrabadasCaja | SinDireccion | SinSaldoOtro | TrabadasOtro | SinSemillaOtro
    | SinCajaOtro | SinDireccionOtro | BuscandoOtro | Falla(motivo: string)
  {
    predicate EsFreno() {
      Falla? || SinSaldo? || Trabadas? || SinSemilla? || SinCaja? || SinSaldoCaja? || TrabadasCaja? || SinDireccion?
      || SinSaldoOtro? || TrabadasOtro? || SinSemillaOtro? || SinCajaOtro? || SinDireccionOtro?
    }

    function Actividad(): EnCurso {
      match this
      case EsperandoPago(_) => PagoEnRed
      case Gastando | BuscandoCaja => PagoFirmando
      case EsperandoFondeo(_) => FondeoEnRed
      case Fondeando | BuscandoMonedas | EsperandoPropuesta | EsperandoContratista | BuscandoOtro => FondeoArmando
      case _ => Nada
    }
  }

  predicate HayFreno(lineas: seq<Aviso>) {
    exists l <- lineas :: l.EsFreno()
  }

  /** The most advanced activity among the lines. */
  function MasAvanzada(lineas: seq<Aviso>): EnCurso {
    if |lineas| == 0 then Nada
    else
      var m, e := MasAvanzada(lineas[..|lineas| - 1]), lineas[|lineas| - 1].Actividad();
      if e.Rango() > m.Rango() then e else m
  }

  // ----- the buttons

  datatype Botonera = Botonera(
    enCurso: EnCurso,
    frenado: bool,
    editarTexto: bool,
    proponerEncierre: bool,
    cancelarPropuesta: bool,
    confirmarFondeo: bool,
    empezarFondeoDeNuevo: bool,
    noEncerrar: bool,
    avisarTermino: bool,
    aceptarPago: bool,
    contraofertar: bool,
    salirLocal: bool,
    meToca: bool,
    traba: Traba)

  const APAGADA := Botonera(
    Nada, false, false, false, false, false, false, false, false, false, false, false, false, Libre)

  /** What the engine is doing with the stage; a payment seen on the chain hides the rest. */
  function Actividad(p: Partida, lineas: seq<Aviso>): EnCurso {
    if p.pagoTxid.Some? && !p.estado.Pagada? then PagoEnRed else MasAvanzada(lineas)
  }

  predicate EsMia(o: Obra, mid: string) {
    o.mandante.id == mid || o.contratista.id == mid
  }

  /** Is it this person's turn to answer the percentage? */
  predicate MeToca(o: Obra, p: Partida, mid: string) {
    match p.turno
    case Some(Mandante) => o.mandante.id == mid
    case Some(Contratista) => o.contratista.id == mid
    case None => false
  }

  /** Button by button, when each one is lit on a stage of an open job: `propuse` says that
      the lock proposal is this person's, `elegible` that the stage may be locked now, and
      `meToca` that the percentage waits for this person. */
  function Encendida(e: EstadoPartida, curso: EnCurso, freno: bool, propuse: bool, elegible: bool, soyC: bool,
                     meToca: bool, traba: Traba): Botonera
  {
    var enRed := curso.FondeoEnRed? || curso.PagoEnRed?;
    var pagando := curso.PagoFirmando? || curso.PagoEnRed?;
    Botonera(
      curso,
      freno,
      e.Pendiente?,
      e.Pendiente? && elegible,
      e.Encerrando? && propuse && !freno && !enRed,
      e.Encerrando? && !propuse && !freno && curso.Nada?,
      e.Encerrando? && freno,
      e.Encerrando? && (freno || (!propuse && (curso.Nada? || !enRed))),
      e.Encerrada? && soyC && traba.Libre?,
      e.EnTrato? && meToca && !pagando && traba.Libre?,
      e.EnTrato? && meToca && !pagando,
      (e.Pendiente? && freno) || (e.Encerrando? && !enRed),
      e.EnTrato? && meToca,
      if e.Encerrada? || (e.EnTrato? && !pagando) then traba else Libre)
  }

  predicate Propuse(p: Partida, mid: string) {
    p.encerradoPor.Some? && p.encerradoPor.value.id == mid
  }

  /** On a finished job, or for a stranger, every button is off. */
  function BotoneraDe(o: Obra, i: nat, mid: string, lineas: seq<Aviso>, traba: Traba): Botonera {
    if i >= |o.partidas| || !EsMia(o, mid) then APAGADA
    else
      var p := o.partidas[i];
      var curso, freno := Actividad(p, lineas), HayFreno(lineas);
      if o.Cortada() then APAGADA.(enCurso := curso, frenado := freno)
      else Encendida(p.estado, curso, freno, Propuse(p, mid), o.estado != Contra && o.Activa() == Some(i),
                     o.contratista.id == mid, MeToca(o, p, mid), traba)
  }

  method Recorrer(lineas: seq<Aviso>) returns (frenado: bool, enCurso: EnCurso)
    ensures frenado == HayFreno(lineas) && enCurso == MasAvanzada(lineas)
  {
    frenado, enCurso := false, Nada;
    var k := 0;
    while k < |lineas|
      invariant 0 <= k <= |lineas|
      invariant frenado == HayFreno(lineas[..k]) && enCurso == MasAvanzada(lineas[..k])
    {
      assert lineas[..k + 1][..k] == lineas[..k];
      assert lineas[k] in lineas[..k + 1];
      frenado := frenado || lineas[k].EsFreno();
      var e := lineas[k].Actividad();
      if e.Rango() > enCurso.Rango() {
        enCurso := e;
      }
      k := k + 1;
    }
    assert lineas[..k] == lineas;
  }

  method Encender(e: EstadoPartida, enCurso: EnCurso, frenado: bool, soyProp: bool, elegible: bool, soyC: bool,
                  suTurno: bool, traba: Traba) returns (a: Botonera)
    ensures a == Encendida(e, enCurso, frenado, soyProp, elegible, soyC, suTurno, traba)
  {
    var editarTexto, proponerEncierre, cancelarPropuesta, confirmarFondeo := false, false, false, false;
    var empezarFondeoDeNuevo, noEncerrar, avisarTermino, aceptarPago := false, false, false, false;
    var contraofertar, salirLocal, meToca, suTraba := false, false, false, Libre;
    var enRed := enCurso == FondeoEnRed || enCurso == PagoEnRed;
    var hayMotor := enCurso != Nada;
    match e {
      case Pendiente =>
        editarTexto := true;
        proponerEncierre := elegible;
        salirLocal := frenado;
      case Encerrando =>
        if soyProp && !frenado {
          cancelarPropuesta := !enRed;
        } else if frenado {
          empezarFondeoDeNuevo := true;
          noEncerrar := true;
        } else if !hayMotor {
          confirmarFondeo := true;
          noEncerrar := true;
        } else {
          noEncerrar := !enRed;
        }
        salirLocal := !enRed;
      case Encerrada =>
        suTraba := traba;
        avisarTermino := soyC && traba == Libre;
      case EnTrato =>
        meToca := suTurno;
        var pagando := enCurso == PagoFirmando || enCurso == PagoEnRed;
        if !pagando {
          suTraba := traba;
        }
        aceptarPago := meToca && !pagando && traba == Libre;
        contraofertar := meToca && !pagando;
      case Pagada =>
    }
    a := Botonera(enCurso, frenado, editarTexto, proponerEncierre, cancelarPropuesta, confirmarFondeo,
                  empezarFondeoDeNuevo, noEncerrar, avisarTermino, aceptarPago, contraofertar, salirLocal, meToca,
                  suTraba);
  }

  method AccionesPartida(o: Obra, i: nat, mid: string, lineas: seq<Aviso>, traba: Traba) returns (a: Botonera)
    ensures a == BotoneraDe(o, i, mid, lineas, traba)
  {
    if i >= |o.partidas| {
      return APAGADA;
    }
    var p := o.partidas[i];
    var soyM, soyC := o.mandante.id == mid, o.contratista.id == mid;
    if !soyM && !soyC {
      return APAGADA;
    }
    var frenado, enCurso := Recorrer(lineas);
    if p.pagoTxid.Some? && p.estado != Pagada {
      enCurso := PagoEnRed;
    }
    if o.Cortada() {
      return APAGADA.(enCurso := enCurso, frenado := frenado);
    }
    var activa := o.Activa() == Some(i);
    var contra := o.estado == Contra;
    var suTurno := match p.turno
      case Some(Mandante) => soyM
      case Some(Contratista) => soyC
      case None => false;
    a := Encender(p.estado, enCurso, frenado, Propuse(p, mid), !contra && activa, soyC, suTurno, traba);
  }

  // ----- agreement with the state machine

  /** A job of two people whose open proposals name which of them made them. */
  predicate BienFormada(o: Obra) {
    && o.mandante.id != o.contratista.id
    && forall p <- o.partidas ::
         && (p.estado.Encerrando? ==> p.encerradoPor.Some? && EsMia(o, p.encerradoPor.value.id))
         && (p.estado.EnTrato? ==> p.propuesto.Some? && p.turno.Some?)
  }

  /** Locking: every lit button is an action the job accepts, and the buttons that are not
      about the engine are lit exactly when it does. */
  lemma BotonesDelEncierre(o: Obra, i: nat, quien: Persona, lineas: seq<Aviso>, traba: Traba,
                           ultima: Option<Cotizacion>, texto: string, ahora: int)
    requires BienFormada(o)
    ensures var b := BotoneraDe(o, i, quien.id, lineas, traba);
      var precio := PrecioParaEncerrar(o, i, ultima, ahora);
      && (b.editarTexto <==> Ejecutar(o, Edita(i, texto), quien, ahora).error.None?)
      && (precio.Ok? ==>
            (b.proponerEncierre <==>
               && Permitida(o, Propone(i, precio.valor)) && o.Activa() == Some(i)
               && Ejecutar(o, Propone(i, precio.valor), quien, ahora).error.None?))
      && (b.cancelarPropuesta || b.noEncerrar ==>
            Permitida(o, Cancela(i)) && Ejecutar(o, Cancela(i), quien, ahora).error.None?)
      && (b.confirmarFondeo <==>
            && i < |o.partidas| && Actividad(o.partidas[i], lineas).Nada? && !HayFreno(lineas)
            && !o.Cortada() && Permitida(o, Fondea(i)) && Ejecutar(o, Fondea(i), quien, ahora).error.None?)
  {
    if i < |o.partidas| {
      assert o.partidas[i] in o.partidas;
    }
  }

  /** Paying: with a percentage and a note that the core takes, each lit button is an action
      the job accepts, and it is lit whenever it would be accepted, nothing is being paid
      and (for finishing and accepting) the funding is free. */
  lemma BotonesDelPago(o: Obra, i: nat, quien: Persona, lineas: seq<Aviso>, traba: Traba,
                       pct: u32, nota: string, ahora: int)
    requires BienFormada(o) && 1 <= pct <= 100 && LimpiaNota(nota).Ok?
    ensures var b := BotoneraDe(o, i, quien.id, lineas, traba);
      var pagando := i < |o.partidas| &&
        (Actividad(o.partidas[i], lineas).PagoFirmando? || Actividad(o.partidas[i], lineas).PagoEnRed?);
      && (b.avisarTermino <==>
            && traba.Libre? && !o.Cortada() && Permitida(o, Termina(i, pct, nota))
            && Ejecutar(o, Termina(i, pct, nota), quien, ahora).error.None?)
      && (b.aceptarPago <==>
            && traba.Libre? && !pagando && !o.Cortada() && Permitida(o, Paga(i))
            && Ejecutar(o, Paga(i), quien, ahora).error.None?)
      && (i < |o.partidas| && o.partidas[i].propuesto != Some(pct) ==>
            (b.contraofertar <==>
               && !pagando && !o.Cortada() && Permitida(o, Contraoferta(i, pct, nota))
               && Ejecutar(o, Contraoferta(i, pct, nota), quien, ahora).error.None?))
  {
    if i < |o.partidas| {
      assert o.partidas[i] in o.partidas;
    }
  }

  /** On one copy the two sides never hold the same move: at most one may accept or counter,
      exactly one is told that it is its turn, and a stage still under its lock lets neither
      finish nor accept. */
  lemma UnLadoPorVez(o: Obra, i: nat, mLineas: seq<Aviso>, cLineas: seq<Aviso>, traba: Traba)
    requires BienFormada(o) && i < |o.partidas|
    ensures var m := BotoneraDe(o, i, o.mandante.id, mLineas, traba);
      var c := BotoneraDe(o, i, o.contratista.id, cLineas, traba);
      && !(m.aceptarPago && c.aceptarPago) && !(m.contraofertar && c.contraofertar)
      && !(m.confirmarFondeo && c.confirmarFondeo) && !(m.cancelarPropuesta && c.cancelarPropuesta)
      && !m.avisarTermino
      && (!o.Cortada() && o.partidas[i].estado.EnTrato? ==> m.meToca != c.meToca)
      && (traba != Libre ==> !m.aceptarPago && !c.aceptarPago && !c.avisarTermino)
  {
    assert o.partidas[i] in o.partidas;
  }
}
