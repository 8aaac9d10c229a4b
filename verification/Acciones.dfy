/** The actions of a person on a job as data, and when the interface offers them. */
module Acciones {
  import opened Base
  import opened Precio
  import opened Partidas
  import opened Obras
  import opened Acuerdo

  datatype Accion =
    | Confirma | Rechaza
    | Propone(i: nat, precio: Option<PrecioFijado>) | Fondea(i: nat) | Cancela(i: nat)
    | Termina(i: nat, pct: u32, nota: string) | Contraoferta(i: nat, pct: u32, nota: string) | Paga(i: nat)
    | Edita(i: nat, texto: string)
    | ProponeExtra(texto: string, monto: u64) | AceptaExtra | RechazaExtra
    | Abandona | AceptaCierre | RechazaCierre

  function Ejecutar(o: Obra, a: Accion, quien: Persona, ahora: int): Salida {
    match a
    case Confirma => ConfirmarContra(o, quien.id, ahora)
    case Rechaza => RechazarContra(o, quien.id, ahora)
    case Propone(i, precio) => EncerrarProponer(o, i, quien, precio, ahora)
    case Fondea(i) => EncerrarConfirmar(o, i, quien, ahora)
    case Cancela(i) => EncerrarCancelar(o, i, quien, ahora)
    case Termina(i, pct, nota) => AvisarTermino(o, i, quien, pct, nota, ahora)
    case Contraoferta(i, pct, nota) => ContraPago(o, i, quien, pct, nota, ahora)
    case Paga(i) => AceptarPago(o, i, quien, ahora)
    case Edita(i, texto) => EditarDetalle(o, i, quien, texto, ahora)
    case ProponeExtra(texto, monto) => ProponerExtra(o, quien, texto, monto, ahora)
    case AceptaExtra => AceptarExtra(o, quien, ahora)
    case RechazaExtra => RechazarExtra(o, quien, ahora)
    case Abandona => Abandonar(o, quien, ahora)
    case AceptaCierre => AceptarCierre(o, quien, ahora)
    case RechazaCierre => RechazarCierre(o, quien, ahora)
  }

  /** The guards on the job that the interface adds to three actions, which do not check them
      themselves: only a waiting counter offer is answered, and a lock starts on an open job
      that waits for no answer. That the 32-bit stage count has room for an extra stage is an
      assumption; nothing checks it. The rest is free at any time: the engine confirms a lock
      or pays a stage when it sees the transaction, and a closing is accepted while its request
      is there, even on a finished job. */
  predicate Permitida(o: Obra, a: Accion) {
    && (a.Confirma? || a.Rechaza? ==> o.estado == Contra)
    && (a.Propone? ==> !o.Cortada() && o.estado != Contra)
    && (a.AceptaExtra? ==> o.nPartidas < U32_MAX)
  }

  /** The three moves of the negotiation over stage `k`. */
  predicate EsJugada(a: Accion, k: nat) {
    (a.Termina? || a.Contraoferta? || a.Paga?) && a.i == k
  }
}
