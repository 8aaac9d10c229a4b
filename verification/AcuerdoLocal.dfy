/** The deal actions and the merge of a job as the source runs them: on a mutable copy,
    one assignment after another. */
module AcuerdoLocal {
  import opened Base
  import opened Texto
  import opened Precio
  import opened Cuotas
  import opened Partidas
  import opened Obras
  import Acuerdo
  import opened FusionObras
  import opened Acciones
  import opened Corrida
  import opened CorridaSegura
  import opened CorridaCierre
  import opened Dinero
  import opened Efectos

  /** The `&mut Obra` of the source. */
  class ObraLocal {
    var o: Obra

    constructor De(valor: Obra)
      ensures o == valor
    {
      o := valor;
    }

    method Tocar(ahora: int)
      modifies this
      ensures o == old(o).(actualizado := ahora)
    {
      o := o.(actualizado := ahora);
    }

    method Poner(i: nat, p: Partida)
      requires i < |o.partidas|
      modifies this
      ensures o == Acuerdo.ConPartida(old(o), i, p)
    {
      o := o.(partidas := o.partidas[i := p]);
    }

    method ConfirmarContra(quien: string, ahora: int) returns (error: Option<Error>)
      modifies this
      ensures Acuerdo.Salida(o, error) == Acuerdo.ConfirmarContra(old(o), quien, ahora)
      ensures error.None? ==> ConfirmacionBien(old(o), o)
    {
      if o.mandante.id != quien {
        return Some(NoToca);
      }
      var contra := o.contra;
      o := o.(contra := None);
      if contra.None? {
        return Some(NoEsta);
      }
      o := o.(garantia := contra.value.garantia);
      o := o.(nPartidas := contra.value.nPartidas);
      o := o.(partidas := NuevasPartidas(contra.value.detalles));
      o := o.(estado := Acordada);
      Tocar(ahora);
      ConfirmarBien(old(o), quien, ahora);
      return None;
    }

    method RechazarContra(quien: string, ahora: int) returns (error: Option<Error>)
      modifies this
      ensures Acuerdo.Salida(o, error) == Acuerdo.RechazarContra(old(o), quien, ahora)
      ensures error.None? ==> RechazoBien(old(o), o)
    {
      if o.mandante.id != quien {
        return Some(NoToca);
      }
      var contra := o.contra;
      o := o.(contra := None);
      if contra.None? {
        return Some(NoEsta);
      }
      o := o.(estado := Rechazada);
      var g := if o.garantiaPublicada > 0 then o.garantiaPublicada else o.garantia;
      match NPartidas(o.trabajo, g) {
        case Ok(n) =>
          o := o.(garantia := g);
          o := o.(nPartidas := n);
          var dets := Acuerdo.Detalles(o.partidas);
          o := o.(partidas := NuevasPartidas(AjustaDetalles(n, dets)));
        case Err(_) =>
      }
      Tocar(ahora);
      RechazarBien(old(o), quien, ahora);
      return None;
    }

    method EncerrarProponer(i: nat, quien: Persona, precio: Option<PrecioFijado>, ahora: int)
      returns (error: Option<Error>)
      modifies this
      ensures Acuerdo.Salida(o, error) == Acuerdo.EncerrarProponer(old(o), i, quien, precio, ahora)
      ensures error.None? ==> PropuestaBien(old(o), o, i, quien, precio)
    {
      if o.RolDe(quien.id).None? {
        return Some(NoToca);
      }
      if i >= |o.partidas| {
        return Some(NoEsta);
      }
      var p := o.partidas[i];
      if p.estado != Pendiente {
        return Some(YaExiste);
      }
      if o.moneda == Usd {
        var ok := precio.Some? && precio.value.Coherente() && precio.value.usdCentavos == p.Capital(o.garantia);
        if !ok {
          return Some(Error.Precio);
        }
        p := p.(precio := precio);
      } else {
        p := p.(precio := None);
      }
      p := p.(estado := Encerrando);
      p := p.(encerradoPor := Some(quien));
      p := p.(encerrarSeq := SumaUno(p.encerrarSeq));
      Poner(i, p);
      o := o.(estado := EnMarcha);
      Tocar(ahora);
      ProponerBien(old(o), i, quien, precio, ahora);
      return None;
    }

    method EncerrarConfirmar(i: nat, quien: Persona, ahora: int) returns (error: Option<Error>)
      modifies this
      ensures Acuerdo.Salida(o, error) == Acuerdo.EncerrarConfirmar(old(o), i, quien, ahora)
      ensures error.None? ==> FondeoBien(old(o), o, i, quien)
    {
      if o.RolDe(quien.id).None? {
        return Some(NoToca);
      }
      if i >= |o.partidas| {
        return Some(NoEsta);
      }
      var p := o.partidas[i];
      if p.estado != Encerrando {
        return Some(NoToca);
      }
      if p.encerradoPor.None? {
        return Some(NoEsta);
      }
      if p.encerradoPor.value.id == quien.id {
        return Some(NoToca);
      }
      p := p.(estado := Encerrada);
      p := p.(encerradoCuando := ahora);
      p := p.(encerrarSeq := SumaUno(p.encerrarSeq));
      Poner(i, p);
      Tocar(ahora);
      ConfirmarEncierreBien(old(o), i, quien, ahora);
      return None;
    }

    method EncerrarCancelar(i: nat, quien: Persona, ahora: int) returns (error: Option<Error>)
      modifies this
      ensures Acuerdo.Salida(o, error) == Acuerdo.EncerrarCancelar(old(o), i, quien, ahora)
      ensures error.None? ==> CancelacionBien(old(o), o, i)
    {
      if o.RolDe(quien.id).None? {
        return Some(NoToca);
      }
      if i >= |o.partidas| {
        return Some(NoEsta);
      }
      var p := o.partidas[i];
      if p.estado != Encerrando {
        return Some(NoToca);
      }
      p := p.(estado := Pendiente);
      p := p.(encerradoPor := None);
      p := p.(precio := None);
      p := p.(encerrarSeq := SumaUno(p.encerrarSeq));
      Poner(i, p);
      Tocar(ahora);
      CancelarBien(old(o), i, quien, ahora);
      return None;
    }

    method AvisarTermino(i: nat, quien: Persona, pct: u32, nota: string, ahora: int) returns (error: Option<Error>)
      modifies this
      ensures Acuerdo.Salida(o, error) == Acuerdo.AvisarTermino(old(o), i, quien, pct, nota, ahora)
      ensures error.None? ==> NotaBien(old(o), o, i, quien, pct)
    {
      if quien.id != o.contratista.id {
        return Some(NoToca);
      }
      var v := Cuotas.Porcentaje(pct);
      if v.Err? {
        return Some(v.error);
      }
      var texto := LimpiaNota(nota);
      if texto.Err? {
        return Some(texto.error);
      }
      if i >= |o.partidas| {
        return Some(NoEsta);
      }
      var p := o.partidas[i];
      if p.estado != Encerrada {
        return Some(NoToca);
      }
      p := p.(notas := p.notas + [Acuerdo.NotaDe(quien, pct, texto.valor, ahora)]);
      p := p.(propuesto := Some(pct));
      p := p.(turno := Some(Mandante));
      p := p.(estado := EnTrato);
      Poner(i, p);
      Tocar(ahora);
      AvisarBien(old(o), i, quien, pct, nota, ahora);
      return None;
    }

    method ContraPago(i: nat, quien: Persona, pct: u32, nota: string, ahora: int) returns (error: Option<Error>)
      modifies this
      ensures Acuerdo.Salida(o, error) == Acuerdo.ContraPago(old(o), i, quien, pct, nota, ahora)
      ensures error.None? ==> NotaBien(old(o), o, i, quien, pct)
    {
      var rol := o.RolDe(quien.id);
      if rol.None? {
        return Some(NoToca);
      }
      var v := Cuotas.Porcentaje(pct);
      if v.Err? {
        return Some(v.error);
      }
      var texto := LimpiaNota(nota);
      if texto.Err? {
        return Some(texto.error);
      }
      if i >= |o.partidas| {
        return Some(NoEsta);
      }
      var p := o.partidas[i];
      if p.estado != EnTrato || p.turno != rol {
        return Some(NoToca);
      }
      if p.propuesto == Some(pct) {
        return Some(YaExiste);
      }
      p := p.(notas := p.notas + [Acuerdo.NotaDe(quien, pct, texto.valor, ahora)]);
      p := p.(propuesto := Some(pct));
      p := p.(turno := Some(Acuerdo.OtroRol(rol.value)));
      Poner(i, p);
      Tocar(ahora);
      ContraPagoBien(old(o), i, quien, pct, nota, ahora);
      return None;
    }

    method AceptarPago(i: nat, quien: Persona, ahora: int) returns (error: Option<Error>)
      modifies this
      ensures Acuerdo.Salida(o, error) == Acuerdo.AceptarPago(old(o), i, quien, ahora)
      ensures error.None? ==> PagoBien(old(o), o, i, quien)
    {
      var rol := o.RolDe(quien.id);
      if rol.None? {
        return Some(NoToca);
      }
      if i >= |o.partidas| {
        return Some(NoEsta);
      }
      var p := o.partidas[i];
      if p.estado != EnTrato || p.turno != rol {
        return Some(NoToca);
      }
      if p.propuesto.None? {
        return Some(NoEsta);
      }
      var pct := p.propuesto.value;
      var cap := p.Capital(o.garantia);
      var titulo := TituloPartida(i, p.detalle);
      p := p.(pago := Some(pct));
      p := p.(turno := None);
      p := p.(estado := Pagada);
      p := p.(recibo := Some(Recibo.Recibo(titulo, pct, MontoPct(cap, pct), quien.nombre, ahora)));
      Poner(i, p);
      if o.TodasPagadas() {
        o := o.(estado := Cerrada);
      }
      Tocar(ahora);
      AceptarPagoBien(old(o), i, quien, ahora);
      return None;
    }

    method EditarDetalle(i: nat, quien: Persona, detalle: string, ahora: int) returns (error: Option<Error>)
      modifies this
      ensures Acuerdo.Salida(o, error) == Acuerdo.EditarDetalle(old(o), i, quien, detalle, ahora)
      ensures error.None? ==> EdicionBien(old(o), o, i)
    {
      if o.RolDe(quien.id).None? {
        return Some(NoToca);
      }
      if o.Cortada() {
        return Some(YaExiste);
      }
      if i >= |o.partidas| {
        return Some(NoEsta);
      }
      var p := o.partidas[i];
      if p.estado != Pendiente {
        return Some(YaExiste);
      }
      Poner(i, p.(detalle := LimpiaDetalle(detalle)));
      Tocar(ahora);
      EditarBien(old(o), i, quien, detalle, ahora);
      return None;
    }

    method ProponerExtra(quien: Persona, detalle: string, monto: u64, ahora: int) returns (error: Option<Error>)
      modifies this
      ensures Acuerdo.Salida(o, error) == Acuerdo.ProponerExtra(old(o), quien, detalle, monto, ahora)
      ensures error.None? ==> ExtraBien(old(o), o, quien)
    {
      if o.RolDe(quien.id).None? || !Acuerdo.EnCurso(o) {
        return Some(NoToca);
      }
      if o.extra.Some? {
        return Some(YaExiste);
      }
      if monto == 0 {
        return Some(Monto);
      }
      var limpio := LimpiaDetalle(detalle);
      if limpio == "" {
        return Some(Error.Detalle);
      }
      o := o.(extraSeq := SumaUno(o.extraSeq));
      o := o.(extra := Some(Extra.Extra(limpio, monto, quien, "")));
      Tocar(ahora);
      ProponerExtraBien(old(o), quien, detalle, monto, ahora);
      return None;
    }

    method AceptarExtra(quien: Persona, ahora: int) returns (error: Option<Error>)
      modifies this
      ensures Acuerdo.Salida(o, error) == Acuerdo.AceptarExtra(old(o), quien, ahora)
      ensures error.None? ==> ExtraAceptada(old(o), o, quien)
    {
      if o.RolDe(quien.id).None? || !Acuerdo.EnCurso(o) {
        return Some(NoToca);
      }
      var extra := o.extra;
      o := o.(extra := None);
      if extra.None? {
        return Some(NoEsta);
      }
      if extra.value.por.id == quien.id {
        o := o.(extra := extra);
        return Some(NoToca);
      }
      if o.trabajo + extra.value.monto > U64_MAX {
        return Some(Monto);
      }
      o := o.(trabajo := o.trabajo + extra.value.monto);
      o := o.(nPartidas := (o.nPartidas + 1) % (U32_MAX + 1));
      o := o.(partidas := o.partidas + [Nueva(LimpiaDetalle(extra.value.detalle), extra.value.monto)]);
      o := o.(extraSeq := SumaUno(o.extraSeq));
      Tocar(ahora);
      AceptarExtraBien(old(o), quien, ahora);
      return None;
    }

    method RechazarExtra(quien: Persona, ahora: int) returns (error: Option<Error>)
      modifies this
      ensures Acuerdo.Salida(o, error) == Acuerdo.RechazarExtra(old(o), quien, ahora)
      ensures error.None? ==>
        && old(o).extra.Some? && old(o).extra.value.por.id != quien.id && o.extra.None?
        && o == old(o).(extra := None, extraSeq := o.extraSeq, actualizado := ahora) && ExtraLibre(o)
    {
      if o.RolDe(quien.id).None? || !Acuerdo.EnCurso(o) {
        return Some(NoToca);
      }
      var extra := o.extra;
      o := o.(extra := None);
      if extra.None? {
        return Some(NoEsta);
      }
      if extra.value.por.id == quien.id {
        o := o.(extra := extra);
        return Some(NoToca);
      }
      o := o.(extraSeq := SumaUno(o.extraSeq));
      Tocar(ahora);
      RechazarExtraBien(old(o), quien, ahora);
      return None;
    }

    method Abandonar(quien: Persona, ahora: int) returns (error: Option<Error>)
      modifies this
      ensures Acuerdo.Salida(o, error) == Acuerdo.Abandonar(old(o), quien, ahora)
      ensures error.None? ==> AbandonoBien(old(o), o, quien)
    {
      if o.RolDe(quien.id).None? {
        return Some(NoToca);
      }
      if o.Cortada() {
        return Some(YaExiste);
      }
      if !o.HayRiesgo() {
        o := o.(estado := Abandonada);
        o := o.(extra := None);
        o := o.(extraSeq := SumaUno(o.extraSeq));
        o := o.(cierre := None);
        o := o.(cierreSeq := SumaUno(o.cierreSeq));
        Tocar(ahora);
        AbandonarBien(old(o), quien, ahora);
        return None;
      }
      if o.cierre.Some? {
        return Some(YaExiste);
      }
      o := o.(cierre := Some(quien));
      o := o.(cierreSeq := SumaUno(o.cierreSeq));
      Tocar(ahora);
      AbandonarBien(old(o), quien, ahora);
      return None;
    }

    method AceptarCierre(quien: Persona, ahora: int) returns (error: Option<Error>)
      modifies this
      ensures Acuerdo.Salida(o, error) == Acuerdo.AceptarCierre(old(o), quien, ahora)
      ensures error.None? ==> CierreBien(old(o), o, quien) && Terminada(o)
    {
      if o.RolDe(quien.id).None? {
        return Some(NoToca);
      }
      var prop := o.cierre;
      o := o.(cierre := None);
      if prop.None? {
        return Some(NoEsta);
      }
      if prop.value.id == quien.id {
        o := o.(cierre := prop);
        return Some(NoToca);
      }
      o := o.(estado := Abandonada);
      o := o.(extra := None);
      o := o.(extraSeq := SumaUno(o.extraSeq));
      o := o.(cierreSeq := SumaUno(o.cierreSeq));
      Tocar(ahora);
      ResponderCierreBien(old(o), quien, ahora);
      return None;
    }

    method RechazarCierre(quien: Persona, ahora: int) returns (error: Option<Error>)
      modifies this
      ensures Acuerdo.Salida(o, error) == Acuerdo.RechazarCierre(old(o), quien, ahora)
      ensures error.None? ==> CierreBien(old(o), o, quien) && o.estado == old(o).estado && CierreLibre(o)
    {
      if o.RolDe(quien.id).None? {
        return Some(NoToca);
      }
      var prop := o.cierre;
      o := o.(cierre := None);
      if prop.None? {
        return Some(NoEsta);
      }
      if prop.value.id == quien.id {
        o := o.(cierre := prop);
        return Some(NoToca);
      }
      o := o.(cierreSeq := SumaUno(o.cierreSeq));
      Tocar(ahora);
      ResponderCierreBien(old(o), quien, ahora);
      return None;
    }

    /** One action, whichever it is: what the interface calls. */
    method Actuar(a: Accion, quien: Persona, ahora: int) returns (error: Option<Error>)
      modifies this
      ensures Acuerdo.Salida(o, error) == Ejecutar(old(o), a, quien, ahora)
      ensures ActoBien(old(o), a, quien, Acuerdo.Salida(o, error))
      ensures CopiaSana(old(o)) && Permitida(old(o), a) ==> CopiaSana(o)
      ensures CierraBien(old(o)) && Permitida(old(o), a) ==> (CierraBien(o) <==> !CierraDeNuevo(old(o), a, quien))
    {
      error := Llamar(a, quien, ahora);
      ActuarBien(old(o), a, quien, ahora);
      if CopiaSana(old(o)) && Permitida(old(o), a) {
        ActuarConserva(old(o), a, quien, ahora);
      }
      if CierraBien(old(o)) && Permitida(old(o), a) {
        AccionCierraBienSi(old(o), a, quien, ahora);
      }
    }

    method Llamar(a: Accion, quien: Persona, ahora: int) returns (error: Option<Error>)
      modifies this
      ensures Acuerdo.Salida(o, error) == Ejecutar(old(o), a, quien, ahora)
    {
      match a {
        case Confirma => error := ConfirmarContra(quien.id, ahora);
        case Rechaza => error := RechazarContra(quien.id, ahora);
        case Propone(i, precio) => error := EncerrarProponer(i, quien, precio, ahora);
        case Fondea(i) => error := EncerrarConfirmar(i, quien, ahora);
        case Cancela(i) => error := EncerrarCancelar(i, quien, ahora);
        case Termina(i, pct, nota) => error := AvisarTermino(i, quien, pct, nota, ahora);
        case Contraoferta(i, pct, nota) => error := ContraPago(i, quien, pct, nota, ahora);
        case Paga(i) => error := AceptarPago(i, quien, ahora);
        case Edita(i, texto) => error := EditarDetalle(i, quien, texto, ahora);
        case ProponeExtra(texto, monto) => error := ProponerExtra(quien, texto, monto, ahora);
        case AceptaExtra => error := AceptarExtra(quien, ahora);
        case RechazaExtra => error := RechazarExtra(quien, ahora);
        case Abandona => error := Abandonar(quien, ahora);
        case AceptaCierre => error := AceptarCierre(quien, ahora);
        case RechazaCierre => error := RechazarCierre(quien, ahora);
      }
    }

    /** A whole run of one device. */
    method Correr(actos: seq<Acto>)
      modifies this
      ensures o == Dinero.Correr(old(o), actos)
      ensures CopiaSana(old(o)) ==> CopiaSana(o)
    {
      var k := 0;
      while k < |actos|
        invariant 0 <= k <= |actos| && o == Dinero.Correr(old(o), actos[..k])
        invariant CopiaSana(old(o)) ==> CopiaSana(o)
      {
        var x := actos[k];
        assert actos[..k + 1][..k] == actos[..k];
        if Permitida(o, x.accion) {
          var _ := Actuar(x.accion, x.quien, x.ahora);
        }
        k := k + 1;
      }
      assert actos[..k] == actos;
    }

    /** A delivery: nothing goes back, closing stays exact, and the list of stages is one of the
        two or their merge, place by place. */
    method Fusionar(otra: Obra)
      modifies this
      ensures o == FusionObra(old(o), otra)
      ensures o.estado.Rango() >= old(o).estado.Rango() && o.estado.Rango() >= otra.estado.Rango()
      ensures o.extraSeq == Max(old(o).extraSeq, otra.extraSeq) && o.cierreSeq == Max(old(o).cierreSeq, otra.cierreSeq)
      ensures CasiExacto(old(o)) && CasiExacto(otra) ==> CierreExacto(o)
      ensures o.partidas == old(o).partidas || o.partidas == FusionPartidas(old(o).partidas, otra.partidas, o.nPartidas)
    {
      FusionObraNoRetrocede(o, otra);
      FusionHechos(o, otra);
      if CasiExacto(o) && CasiExacto(otra) {
        FusionDejaCierreExacto(o, otra);
      }
      o := o.(mandante := LlenarClave(o.mandante, otra.mandante));
      o := o.(contratista := LlenarClave(o.contratista, otra.contratista));
      if otra.moneda == Usd {
        o := o.(moneda := Usd);
      }
      FusionarCuerpo(otra);
      FusionarExtra(otra);
      FusionarCierre(otra);
      FusionarEstado(otra);
    }

    method FusionarCuerpo(otra: Obra)
      modifies this
      ensures o == FusionCuerpo(old(o), otra)
    {
      if otra.estado.Rango() > o.estado.Rango() {
        o := o.(estado := otra.estado);
        o := o.(garantia := otra.garantia);
        o := o.(trabajo := otra.trabajo);
        o := o.(nPartidas := otra.nPartidas);
        if otra.garantiaPublicada > 0 {
          o := o.(garantiaPublicada := otra.garantiaPublicada);
        }
        o := o.(contra := otra.contra);
        var ps := FusionarPartidas(o.partidas, otra.partidas, o.nPartidas);
        o := o.(partidas := ps);
      } else if otra.estado.Rango() == o.estado.Rango() {
        if o.contra.None? {
          o := o.(contra := otra.contra);
        }
        if otra.nPartidas == o.nPartidas {
          var ps := FusionarPartidas(o.partidas, otra.partidas, o.nPartidas);
          o := o.(partidas := ps);
        }
      } else if otra.nPartidas == o.nPartidas {
        var ps := FusionarPartidas(o.partidas, otra.partidas, o.nPartidas);
        o := o.(partidas := ps);
      }
    }

    method FusionarExtra(otra: Obra)
      modifies this
      ensures o == FusionExtra(old(o), otra)
    {
      if otra.nPartidas > o.nPartidas && otra.estado.Rango() >= o.estado.Rango()
         && o.estado != Rechazada && o.estado != Abandonada
      {
        o := o.(trabajo := otra.trabajo);
        o := o.(nPartidas := otra.nPartidas);
        var ps := FusionarPartidas(o.partidas, otra.partidas, o.nPartidas);
        o := o.(partidas := ps);
        o := o.(extra := None);
        o := o.(extraSeq := Max(o.extraSeq, otra.extraSeq));
      } else if otra.extraSeq > o.extraSeq {
        o := o.(extra := otra.extra);
        o := o.(extraSeq := otra.extraSeq);
      } else if otra.extraSeq == o.extraSeq {
        if o.extra.Some? && otra.extra.Some? {
          if o.extra.value.detalleCaja == "" && otra.extra.value.detalleCaja != "" {
            o := o.(extra := Some(o.extra.value.(detalleCaja := otra.extra.value.detalleCaja)));
            o := o.(extra := Some(o.extra.value.(detalle := "")));
          }
        }
      }
    }

    method FusionarCierre(otra: Obra)
      modifies this
      ensures o == FusionCierre(old(o), otra)
    {
      if o.Cortada() {
        o := o.(extra := None);
        o := o.(cierre := None);
      }
      if o.estado == Abandonada {
        o := o.(cierre := None);
        o := o.(cierreSeq := Max(o.cierreSeq, otra.cierreSeq));
      } else if otra.cierreSeq > o.cierreSeq {
        o := o.(cierre := otra.cierre);
        o := o.(cierreSeq := otra.cierreSeq);
      }
    }

    method FusionarEstado(otra: Obra)
      modifies this
      ensures o == FusionEstado(old(o), otra)
    {
      if o.estado != Rechazada && o.estado != Abandonada && o.HayRiesgo() && o.estado.Rango() < EnMarcha.Rango() {
        o := o.(estado := EnMarcha);
      }
      if o.TodasPagadas() && |o.partidas| > 0 {
        o := o.(estado := Cerrada);
      }
      o := o.(actualizado := Max(o.actualizado, otra.actualizado));
    }
  }

  /** A whole run of the deal on mutable copies: each device acts and receives in place. What
      it reaches is the world of the run, with one history per stage. */
  method Vivir(o0: Obra, es: seq<Evento>) returns (w: Mundo)
    ensures w == Tras(Inicio(o0), es, o0)
    ensures Trato(o0) ==> exists hs :: Seguro(w, o0, hs)
  {
    w := Inicio(o0);
    var k := 0;
    while k < |es|
      invariant 0 <= k <= |es| && w == Tras(Inicio(o0), es[..k], o0)
    {
      assert es[..k + 1][..k] == es[..k];
      w := Suceder(w, es[k], o0);
      k := k + 1;
    }
    assert es[..k] == es;
    if Trato(o0) {
      var _, hs := MundoAlcanzado(o0, es);
      assert Seguro(w, o0, hs);
    }
  }

  method Suceder(w: Mundo, e: Evento, o0: Obra) returns (r: Mundo)
    ensures r == Siguiente(w, e, o0)
  {
    if !Posible(w, e, o0) {
      return w;
    }
    if e.Local? {
      var copia := new ObraLocal.De(w.copias[e.lugar]);
      var _ := copia.Actuar(e.accion, e.quien, e.ahora);
      r := w.(copias := w.copias[e.lugar := copia.o]);
    } else if e.Recibir? {
      var copia := new ObraLocal.De(w.copias[e.lugar]);
      copia.Fusionar(e.foto);
      r := w.(copias := w.copias[e.lugar := copia.o]);
    } else if e.Publicar? {
      r := w.(sopa := w.sopa + {e.foto});
    } else {
      r := w.(copias := w.copias[e.lugar := e.foto]);
    }
  }
}
