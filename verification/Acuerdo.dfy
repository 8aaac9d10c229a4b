/** Everything two people can do to a job on one device (the `impl Obra` of acuerdo.rs).

    Each action is a function from a copy to the copy after it and the error it reports,
    if any; the class in AcuerdoLocal performs it in place, assignment by assignment, and
    is proved against that function. A refusal leaves the copy as it was, with one exception kept
    from the source: an accepted extra that overflows the price is dropped
    (`AceptarExtra`). Clock readings are the parameter `ahora`. */
module Acuerdo {
  import opened Base
  import opened Texto
  import opened Precio
  import opened Cuotas
  import opened Partidas
  import opened Obras

  datatype Salida = Salida(obra: Obra, error: Option<Error>)

  function Hecho(o: Obra, ahora: int): Salida {
    Salida(o.(actualizado := ahora), None)
  }

  function Falla(o: Obra, e: Error): Salida {
    Salida(o, Some(e))
  }

  function ConPartida(o: Obra, i: nat, p: Partida): Obra
    requires i < |o.partidas|
  {
    o.(partidas := o.partidas[i := p])
  }

  // ----- counter offer on the bond

  function ConfirmarContra(o: Obra, quien: string, ahora: int): Salida {
    if o.mandante.id != quien then Falla(o, NoToca)
    else match o.contra
      case None => Falla(o, NoEsta)
      case Some(acc) =>
        Hecho(o.(contra := None, garantia := acc.garantia, nPartidas := acc.nPartidas,
                 partidas := NuevasPartidas(acc.detalles), estado := Acordada), ahora)
  }

  function Detalles(ps: seq<Partida>): (r: seq<string>)
    ensures |r| == |ps|
    ensures forall k :: 0 <= k < |ps| ==> r[k] == ps[k].detalle
  {
    seq(|ps|, k requires 0 <= k < |ps| => ps[k].detalle)
  }

  function RechazarContra(o: Obra, quien: string, ahora: int): Salida {
    if o.mandante.id != quien then Falla(o, NoToca)
    else if o.contra.None? then Falla(o, NoEsta)
    else
      var g := if o.garantiaPublicada > 0 then o.garantiaPublicada else o.garantia;
      var r := o.(contra := None, estado := Rechazada);
      match NPartidas(o.trabajo, g)
      case Err(_) => Hecho(r, ahora)
      case Ok(n) =>
        Hecho(r.(garantia := g, nPartidas := n,
                 partidas := NuevasPartidas(AjustaDetalles(n, Detalles(o.partidas)))), ahora)
  }

  // ----- locking a stage takes both

  function EncerrarProponer(o: Obra, i: nat, quien: Persona, precio: Option<PrecioFijado>, ahora: int): Salida {
    if o.RolDe(quien.id).None? then Falla(o, NoToca)
    else if i >= |o.partidas| then Falla(o, NoEsta)
    else
      var p := o.partidas[i];
      if !p.estado.Pendiente? then Falla(o, YaExiste)
      else if o.moneda.Usd? &&
              !(precio.Some? && precio.value.Coherente() && precio.value.usdCentavos == p.Capital(o.garantia))
      then Falla(o, Error.Precio)
      else
        var q := p.(precio := if o.moneda.Usd? then precio else None,
                    estado := Encerrando,
                    encerradoPor := Some(quien),
                    encerrarSeq := SumaUno(p.encerrarSeq));
        Hecho(ConPartida(o, i, q).(estado := EnMarcha), ahora)
  }

  function EncerrarConfirmar(o: Obra, i: nat, quien: Persona, ahora: int): Salida {
    if o.RolDe(quien.id).None? then Falla(o, NoToca)
    else if i >= |o.partidas| then Falla(o, NoEsta)
    else
      var p := o.partidas[i];
      if !p.estado.Encerrando? then Falla(o, NoToca)
      else if p.encerradoPor.None? then Falla(o, NoEsta)
      else if p.encerradoPor.value.id == quien.id then Falla(o, NoToca)
      else
        Hecho(ConPartida(o, i, p.(estado := Encerrada, encerradoCuando := ahora,
                                  encerrarSeq := SumaUno(p.encerrarSeq))), ahora)
  }

  function EncerrarCancelar(o: Obra, i: nat, quien: Persona, ahora: int): Salida {
    if o.RolDe(quien.id).None? then Falla(o, NoToca)
    else if i >= |o.partidas| then Falla(o, NoEsta)
    else
      var p := o.partidas[i];
      if !p.estado.Encerrando? then Falla(o, NoToca)
      else
        Hecho(ConPartida(o, i, p.(estado := Pendiente, encerradoPor := None, precio := None,
                                  encerrarSeq := SumaUno(p.encerrarSeq))), ahora)
  }

  // ----- finishing a stage and agreeing on its pay

  function NotaDe(quien: Persona, pct: u32, texto: string, ahora: int): Nota {
    Nota.Nota(quien.id, quien.nombre, pct, texto, ahora, "")
  }

  function OtroRol(r: Rol): Rol {
    if r.Mandante? then Contratista else Mandante
  }

  function AvisarTermino(o: Obra, i: nat, quien: Persona, pct: u32, nota: string, ahora: int): Salida {
    if quien.id != o.contratista.id then Falla(o, NoToca)
    else if Cuotas.Porcentaje(pct).Err? then Falla(o, Cuotas.Porcentaje(pct).error)
    else if LimpiaNota(nota).Err? then Falla(o, LimpiaNota(nota).error)
    else if i >= |o.partidas| then Falla(o, NoEsta)
    else
      var p := o.partidas[i];
      if !p.estado.Encerrada? then Falla(o, NoToca)
      else
        Hecho(ConPartida(o, i, p.(notas := p.notas + [NotaDe(quien, pct, LimpiaNota(nota).valor, ahora)],
                                  propuesto := Some(pct), turno := Some(Mandante), estado := EnTrato)), ahora)
  }

  function ContraPago(o: Obra, i: nat, quien: Persona, pct: u32, nota: string, ahora: int): Salida {
    var rol := o.RolDe(quien.id);
    if rol.None? then Falla(o, NoToca)
    else if Cuotas.Porcentaje(pct).Err? then Falla(o, Cuotas.Porcentaje(pct).error)
    else if LimpiaNota(nota).Err? then Falla(o, LimpiaNota(nota).error)
    else if i >= |o.partidas| then Falla(o, NoEsta)
    else
      var p := o.partidas[i];
      if !p.estado.EnTrato? || p.turno != rol then Falla(o, NoToca)
      else if p.propuesto == Some(pct) then Falla(o, YaExiste)
      else
        Hecho(ConPartida(o, i, p.(notas := p.notas + [NotaDe(quien, pct, LimpiaNota(nota).valor, ahora)],
                                  propuesto := Some(pct), turno := Some(OtroRol(rol.value)))), ahora)
  }

  function ReciboDe(o: Obra, i: nat, quien: Persona, pct: u32, ahora: int): Recibo
    requires i < |o.partidas|
  {
    var p := o.partidas[i];
    Recibo.Recibo(TituloPartida(i, p.detalle), pct, MontoPct(p.Capital(o.garantia), pct), quien.nombre, ahora)
  }

  function AceptarPago(o: Obra, i: nat, quien: Persona, ahora: int): Salida {
    var rol := o.RolDe(quien.id);
    if rol.None? then Falla(o, NoToca)
    else if i >= |o.partidas| then Falla(o, NoEsta)
    else
      var p := o.partidas[i];
      if !p.estado.EnTrato? || p.turno != rol then Falla(o, NoToca)
      else if p.propuesto.None? then Falla(o, NoEsta)
      else
        var pct := p.propuesto.value;
        var r := ConPartida(o, i, p.(pago := Some(pct), turno := None, estado := Pagada,
                                     recibo := Some(ReciboDe(o, i, quien, pct, ahora))));
        Hecho(if r.TodasPagadas() then r.(estado := Cerrada) else r, ahora)
  }

  function EditarDetalle(o: Obra, i: nat, quien: Persona, detalle: string, ahora: int): Salida {
    if o.RolDe(quien.id).None? then Falla(o, NoToca)
    else if o.Cortada() then Falla(o, YaExiste)
    else if i >= |o.partidas| then Falla(o, NoEsta)
    else if !o.partidas[i].estado.Pendiente? then Falla(o, YaExiste)
    else Hecho(ConPartida(o, i, o.partidas[i].(detalle := LimpiaDetalle(detalle))), ahora)
  }

  // ----- extra stages

  predicate EnCurso(o: Obra) {
    o.estado == Acordada || o.estado == EnMarcha
  }

  function ProponerExtra(o: Obra, quien: Persona, detalle: string, monto: u64, ahora: int): Salida {
    if o.RolDe(quien.id).None? then Falla(o, NoToca)
    else if !EnCurso(o) then Falla(o, NoToca)
    else if o.extra.Some? then Falla(o, YaExiste)
    else if monto == 0 then Falla(o, Monto)
    else if LimpiaDetalle(detalle) == "" then Falla(o, Error.Detalle)
    else
      Hecho(o.(extraSeq := SumaUno(o.extraSeq),
               extra := Some(Extra.Extra(LimpiaDetalle(detalle), monto, quien, ""))), ahora)
  }

  /** The 32-bit stage count wraps. */
  function AceptarExtra(o: Obra, quien: Persona, ahora: int): Salida {
    if o.RolDe(quien.id).None? then Falla(o, NoToca)
    else if !EnCurso(o) then Falla(o, NoToca)
    else match o.extra
      case None => Falla(o, NoEsta)
      case Some(extra) =>
        if extra.por.id == quien.id then Falla(o, NoToca)
        else if o.trabajo + extra.monto > U64_MAX then Falla(o.(extra := None), Monto)
        else
          Hecho(o.(extra := None,
                   trabajo := o.trabajo + extra.monto,
                   nPartidas := (o.nPartidas + 1) % (U32_MAX + 1),
                   partidas := o.partidas + [Nueva(LimpiaDetalle(extra.detalle), extra.monto)],
                   extraSeq := SumaUno(o.extraSeq)), ahora)
  }

  function RechazarExtra(o: Obra, quien: Persona, ahora: int): Salida {
    if o.RolDe(quien.id).None? then Falla(o, NoToca)
    else if !EnCurso(o) then Falla(o, NoToca)
    else match o.extra
      case None => Falla(o, NoEsta)
      case Some(extra) =>
        if extra.por.id == quien.id then Falla(o, NoToca)
        else Hecho(o.(extra := None, extraSeq := SumaUno(o.extraSeq)), ahora)
  }

  // ----- ending a job early

  function Abandonar(o: Obra, quien: Persona, ahora: int): Salida {
    if o.RolDe(quien.id).None? then Falla(o, NoToca)
    else if o.Cortada() then Falla(o, YaExiste)
    else if !o.HayRiesgo() then
      Hecho(o.(estado := Abandonada, extra := None, extraSeq := SumaUno(o.extraSeq),
               cierre := None, cierreSeq := SumaUno(o.cierreSeq)), ahora)
    else if o.cierre.Some? then Falla(o, YaExiste)
    else Hecho(o.(cierre := Some(quien), cierreSeq := SumaUno(o.cierreSeq)), ahora)
  }

  function AceptarCierre(o: Obra, quien: Persona, ahora: int): Salida {
    if o.RolDe(quien.id).None? then Falla(o, NoToca)
    else match o.cierre
      case None => Falla(o, NoEsta)
      case Some(prop) =>
        if prop.id == quien.id then Falla(o, NoToca)
        else
          Hecho(o.(cierre := None, estado := Abandonada, extra := None, extraSeq := SumaUno(o.extraSeq),
                   cierreSeq := SumaUno(o.cierreSeq)), ahora)
  }

  function RechazarCierre(o: Obra, quien: Persona, ahora: int): Salida {
    if o.RolDe(quien.id).None? then Falla(o, NoToca)
    else match o.cierre
      case None => Falla(o, NoEsta)
      case Some(prop) =>
        if prop.id == quien.id then Falla(o, NoToca)
        else Hecho(o.(cierre := None, cierreSeq := SumaUno(o.cierreSeq)), ahora)
  }
}
