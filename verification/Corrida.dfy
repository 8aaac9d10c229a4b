/** Whole runs of one deal: the two parties act on their own copies, anyone relays, and
    copies of any age are delivered in any order, any number of times.

    Every run keeps one note history per stage. Every copy anywhere, on a device or in
    flight, holds a prefix of it; the two parties never hold the move at the same time; and
    all paid copies agree on the payment and the receipt. */
module Corrida {
  import opened Base
  import opened Partidas
  import opened Obras
  import opened FusionObras
  import opened Acciones

  datatype Lugar = DeMandante | DeContratista | Relevo(n: nat)

  /** The copies on the devices, and every snapshot that was ever sent. */
  datatype Mundo = Mundo(copias: map<Lugar, Obra>, sopa: set<Obra>)

  datatype Evento =
    | Local(lugar: Lugar, accion: Accion, quien: Persona, ahora: int)
    | Publicar(lugar: Lugar, foto: Obra)
    | Recibir(lugar: Lugar, foto: Obra)
    | Adoptar(lugar: Lugar, foto: Obra)
    | Retocar(lugar: Lugar, foto: Obra)

  // ----- what sealing and watching the chain may change

  function SinSello(p: Partida): Partida {
    p.(notas := Nucleos(p.notas), fondeoTxid := None, pagoTxid := None)
  }

  /** A job without what sealing, opening, stamping keys and observing transactions touch. */
  function Desnuda(o: Obra): Obra {
    o.(mandante := o.mandante.(clavePub := ""),
       contratista := o.contratista.(clavePub := ""),
       extra := if o.extra.Some? then Some(o.extra.value.(detalle := "", detalleCaja := "")) else None,
       partidas := seq(|o.partidas|, k requires 0 <= k < |o.partidas| => SinSello(o.partidas[k])))
  }

  predicate MismaSalvoSello(a: Obra, b: Obra) {
    Desnuda(a) == Desnuda(b)
  }

  // ----- the runs

  function Dueno(o0: Obra, l: Lugar): Option<string> {
    match l
    case DeMandante => Some(o0.mandante.id)
    case DeContratista => Some(o0.contratista.id)
    case Relevo(_) => None
  }

  /** A party acts on its own copy; a snapshot is a copy up to sealing; deliveries come from
      the soup; a device without a copy takes one as it is. */
  predicate Posible(w: Mundo, e: Evento, o0: Obra) {
    match e
    case Local(l, a, quien, _) => l in w.copias && Dueno(o0, l) == Some(quien.id) && Permitida(w.copias[l], a)
    case Publicar(l, foto) => l in w.copias && MismaSalvoSello(w.copias[l], foto)
    case Recibir(l, foto) => l in w.copias && foto in w.sopa
    case Adoptar(l, foto) => l !in w.copias && foto in w.sopa
    case Retocar(l, foto) => l in w.copias && MismaSalvoSello(w.copias[l], foto)
  }

  function Siguiente(w: Mundo, e: Evento, o0: Obra): Mundo {
    if !Posible(w, e, o0) then w
    else match e
      case Local(l, a, quien, ahora) => w.(copias := w.copias[l := Ejecutar(w.copias[l], a, quien, ahora).obra])
      case Publicar(_, foto) => w.(sopa := w.sopa + {foto})
      case Recibir(l, foto) => w.(copias := w.copias[l := FusionObra(w.copias[l], foto)])
      case Adoptar(l, foto) => w.(copias := w.copias[l := foto])
      case Retocar(l, foto) => w.(copias := w.copias[l := foto])
  }

  function Tras(w: Mundo, es: seq<Evento>, o0: Obra): Mundo {
    if |es| == 0 then w else Siguiente(Tras(w, es[..|es| - 1], o0), es[|es| - 1], o0)
  }

  /** The deal starts on the contractor's device. */
  function Inicio(o0: Obra): Mundo {
    Mundo(map[DeContratista := o0], {o0})
  }

  predicate SinTrato(p: Partida) {
    p.notas == [] && p.propuesto.None? && p.turno.None? && p.pago.None? && p.recibo.None?
  }

  predicate Quieta(o: Obra) {
    && Contada(o)
    && forall k :: 0 <= k < |o.partidas| ==> o.partidas[k].estado.Pendiente? && SinTrato(o.partidas[k])
  }

  /** A job as `desde_oferta` makes it, with or without a counter offer. */
  predicate Trato(o0: Obra) {
    && o0.mandante.id != o0.contratista.id
    && Quieta(o0)
    && (o0.estado == Acordada
        || (o0.estado == Contra && o0.contra.Some?
            && |o0.contra.value.detalles| == o0.contra.value.nPartidas == o0.nPartidas))
  }

  lemma DesdeOfertaEsTrato(oferta: Oferta, contratista: Persona, garantia: u64, detalles: seq<string>, ahora: int)
    requires Aceptar(oferta, contratista, garantia, detalles).Ok?
    requires oferta.mandante.id != contratista.id
    ensures var r := DesdeOferta(oferta, Aceptar(oferta, contratista, garantia, detalles).valor, ahora);
      r.Ok? && Trato(r.valor)
  {
  }

  // ----- one history per stage

  datatype Fin = Fin(pago: u32, recibo: Recibo)

  /** The notes of a stage without their words, and its payment if there is one. */
  datatype Historia = Historia(notas: seq<Nota>, fin: Option<Fin>)

  /** Whose turn it is after `n` notes. The contractor writes the first one. */
  function Toca(n: nat): Rol {
    if n % 2 == 0 then Contratista else Mandante
  }

  function LugarDe(r: Rol): Lugar {
    if r.Mandante? then DeMandante else DeContratista
  }

  function IdDe(o0: Obra, r: Rol): string {
    if r.Mandante? then o0.mandante.id else o0.contratista.id
  }

  /** Each note is by the one whose turn it was, never repeats the percentage before it, and
      the payment is the last percentage proposed. */
  predicate HistoriaValida(h: Historia, o0: Obra) {
    && (forall k :: 0 <= k < |h.notas| ==>
          h.notas[k].autorId == IdDe(o0, Toca(k)) && 1 <= h.notas[k].porcentaje <= 100)
    && (forall k :: 0 < k < |h.notas| ==> h.notas[k].porcentaje != h.notas[k - 1].porcentaje)
    && (h.fin.Some? ==> |h.notas| > 0 && h.fin.value.pago == h.fin.value.recibo.porcentaje
                        && h.fin.value.pago == h.notas[|h.notas| - 1].porcentaje)
  }

  /** The stage copy `p` is a point of the history `h`. */
  predicate Fiel(p: Partida, h: Historia) {
    if p.estado.Rango() < EN_TRATO then SinTrato(p)
    else
      && 1 <= |p.notas| <= |h.notas|
      && Nucleos(p.notas) == h.notas[..|p.notas|]
      && p.propuesto == Some(p.notas[|p.notas| - 1].porcentaje)
      && if p.estado.EnTrato? then p.turno == Some(Toca(|p.notas|)) && p.pago.None? && p.recibo.None?
         else |p.notas| == |h.notas| && h.fin.Some? && p.turno.None?
              && p.pago == Some(h.fin.value.pago) && p.recibo == Some(h.fin.value.recibo)
  }

  predicate TodaFiel(o: Obra, hs: seq<Historia>) {
    forall k :: 0 <= k < |hs| && k < |o.partidas| ==> Fiel(o.partidas[k], hs[k])
  }

  /** The safety of one reached world: one history per base stage, and one mover at most. */
  predicate Seguro(w: Mundo, o0: Obra, hs: seq<Historia>) {
    && |hs| == o0.nPartidas
    && (forall k :: 0 <= k < |hs| ==> HistoriaValida(hs[k], o0))
    && (forall l <- w.copias :: TodaFiel(w.copias[l], hs))
    && (forall s <- w.sopa :: TodaFiel(s, hs))
  }

  /** `h'` only adds to `h`: notes are never taken back, and a payment never changes. */
  predicate Extiende(h: Historia, h': Historia) {
    h.notas <= h'.notas && (h.fin.Some? ==> h' == h)
  }

  predicate Extienden(hs: seq<Historia>, hs': seq<Historia>) {
    |hs| == |hs'| && forall k :: 0 <= k < |hs| ==> Extiende(hs[k], hs'[k])
  }

  /** A move in the negotiation of stage `k` that this device could make now. */
  predicate Juega(w: Mundo, o0: Obra, l: Lugar, k: nat, a: Accion, quien: Persona, ahora: int) {
    && l in w.copias && Dueno(o0, l) == Some(quien.id) && EsJugada(a, k)
    && Ejecutar(w.copias[l], a, quien, ahora).error.None?
  }

  /** A copy, on a device or in flight. */
  predicate Existe(w: Mundo, c: Obra) {
    c in w.sopa || exists l <- w.copias :: w.copias[l] == c
  }

  // ----- the inductive invariant

  datatype Modo = SinDecidir | Rechazado | Vivo

  predicate MismasPersonas(o: Obra, o0: Obra) {
    o.mandante.id == o0.mandante.id && o.contratista.id == o0.contratista.id
  }

  /** A copy while the counter offer is open, or after it was rejected: nothing started. */
  predicate CopiaQuieta(o: Obra, o0: Obra, modo: Modo) {
    && MismasPersonas(o, o0) && Quieta(o)
    && (o.estado == Contra || o.estado == Abandonada || (o.estado == Rechazada && modo == Rechazado))
    && (modo == SinDecidir ==> o.nPartidas == o0.nPartidas && o.contra == o0.contra)
  }

  /** A copy of a deal that was struck. */
  predicate CopiaViva(o: Obra, o0: Obra, hs: seq<Historia>) {
    && MismasPersonas(o, o0) && Contada(o) && o.nPartidas >= |hs|
    && o.estado != Publicada && o.estado != Rechazada
    && (o0.estado == Acordada ==> o.estado != Contra)
    && TodaFiel(o, hs)
  }

  predicate CopiaBien(o: Obra, o0: Obra, modo: Modo, hs: seq<Historia>) {
    if modo == Vivo then CopiaViva(o, o0, hs) else CopiaQuieta(o, o0, modo)
  }

  function Largo(w: Mundo, l: Lugar, k: nat): nat {
    if l in w.copias && k < |w.copias[l].partidas| then |w.copias[l].partidas[k].notas| else 0
  }

  /** Each party's own copy holds all that it wrote: the writer of the last note has the
      whole history, the other lacks at most that note, and whoever paid has it paid. */
  predicate Tenida(w: Mundo, k: nat, h: Historia) {
    var n := |h.notas|;
    && (n > 0 ==> Largo(w, LugarDe(Toca(n - 1)), k) >= n && Largo(w, LugarDe(Toca(n)), k) >= n - 1)
    && (h.fin.Some? ==> var l := LugarDe(Toca(n));
          l in w.copias && k < |w.copias[l].partidas| && w.copias[l].partidas[k].estado.Pagada?)
  }

  predicate CopiasBien(w: Mundo, o0: Obra, modo: Modo, hs: seq<Historia>) {
    && (forall l <- w.copias :: CopiaBien(w.copias[l], o0, modo, hs))
    && (forall s <- w.sopa :: CopiaBien(s, o0, modo, hs))
  }

  predicate HistoriasBien(w: Mundo, o0: Obra, hs: seq<Historia>) {
    && |hs| == o0.nPartidas
    && forall k :: 0 <= k < |hs| ==> HistoriaValida(hs[k], o0) && Tenida(w, k, hs[k])
  }

  /** Only the principal decides the counter offer, once, on its own device. */
  predicate ModoBien(w: Mundo, o0: Obra, modo: Modo, hs: seq<Historia>) {
    && (modo != Vivo ==> o0.estado == Contra && forall k :: 0 <= k < |hs| ==> hs[k] == Historia([], None))
    && (modo == Rechazado ==> DeMandante in w.copias)
    && (modo != SinDecidir && DeMandante in w.copias ==> w.copias[DeMandante].estado != Contra)
    && (modo == Vivo && DeMandante !in w.copias ==> o0.estado == Acordada)
  }

  predicate Inv(w: Mundo, o0: Obra, modo: Modo, hs: seq<Historia>) {
    Trato(o0) && CopiasBien(w, o0, modo, hs) && HistoriasBien(w, o0, hs) && ModoBien(w, o0, modo, hs)
  }
}
