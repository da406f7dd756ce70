/** The views of reservas/views.py as operations on the stored data:
    `crear_reserva`, `cancelar_reserva` with `_Realizar_Reembolso`, and
    `admin_cancelar_reserva`. A `transaction.atomic()` block that raises is
    rolled back: the operation then leaves the store as it found it. */
module ReservaViews {
  import opened Wrappers
  import opened Texto
  import opened Vehiculos
  import opened Reservas
  import opened ReservaForms

  /** Why a unit of work was rolled back: the card number matches no card,
      `save()` found the reservation invalid, or a state lookup by name
      matched several rows of the Estado table. */
  datatype Causa = TarjetaInexistente | Validacion(error: ErrorReserva) | EstadoAmbiguo

  /** How `crear_reserva` ends. */
  datatype ResultadoCreacion =
    | SinEstadoDisponible                          // no Estado named "disponible": redirect
    | ErrorInterno                                 // several such rows: the lookup raises
    | VehiculoNoEncontrado                         // 404: no such vehicle, or not Disponible
    | FormularioInvalido(errores: seq<ErrorFormulario>)
    | NoCreada(causa: Causa)                       // rolled back
    | Creada(id: int)

  /** How `cancelar_reserva` and `admin_cancelar_reserva` end. */
  datatype ResultadoCancelacion =
    | SinPermiso                                   // not staff
    | NoEncontrada                                 // 404
    | FueraDePlazo                                 // less than 24 hours before the start
    | MotivoInvalido(error: ErrorMotivo)
    | NoCancelada(causa: Causa)                    // rolled back
    | Cancelada(vehiculoLiberado: bool)            // committed; whether `liberar()` succeeded

  /** No two Confirmada reservations of one vehicle share a day. */
  ghost predicate SinDobleReserva(reservas: map<int, Reserva>) {
    forall i, j :: i in reservas && j in reservas && i != j &&
                   reservas[i].vehiculo == reservas[j].vehiculo &&
                   reservas[i].estado == "Confirmada" && reservas[j].estado == "Confirmada" ==>
                   !Solapan(reservas[i].fechaInicio, reservas[i].fechaFin, reservas[j].fechaInicio, reservas[j].fechaFin)
  }

  /** Adding a Confirmada reservation that conflicts with no reservation in a
      blocking set containing Confirmada keeps vehicles from being booked
      twice. */
  lemma {:induction false} InsertarSinDobleReserva(reservas: map<int, Reserva>, id: int, nueva: Reserva, bloqueo: set<string>)
    requires SinDobleReserva(reservas) && id !in reservas
    requires "Confirmada" in bloqueo
    requires !HayConflicto(reservas, nueva.vehiculo, nueva.fechaInicio, nueva.fechaFin, None, bloqueo)
    ensures SinDobleReserva(reservas[id := nueva])
  {
    var despues := reservas[id := nueva];
    forall i, j | i in despues && j in despues && i != j &&
                  despues[i].vehiculo == despues[j].vehiculo &&
                  despues[i].estado == "Confirmada" && despues[j].estado == "Confirmada"
      ensures !Solapan(despues[i].fechaInicio, despues[i].fechaFin, despues[j].fechaInicio, despues[j].fechaFin)
    {
      if i == id {
        assert !Conflicto(reservas[j], nueva.vehiculo, nueva.fechaInicio, nueva.fechaFin, bloqueo);
      } else if j == id {
        assert !Conflicto(reservas[i], nueva.vehiculo, nueva.fechaInicio, nueva.fechaFin, bloqueo);
      }
    }
  }

  /** Taking a reservation out of state Confirmada cannot create a double booking. */
  lemma {:induction false} CancelarSinDobleReserva(reservas: map<int, Reserva>, id: int, cancelada: Reserva)
    requires SinDobleReserva(reservas) && id in reservas
    requires cancelada.estado != "Confirmada"
    ensures SinDobleReserva(reservas[id := cancelada])
  {
    var despues := reservas[id := cancelada];
    forall i, j | i in despues && j in despues && i != j &&
                  despues[i].vehiculo == despues[j].vehiculo &&
                  despues[i].estado == "Confirmada" && despues[j].estado == "Confirmada"
      ensures !Solapan(despues[i].fechaInicio, despues[i].fechaFin, despues[j].fechaInicio, despues[j].fechaFin)
    {
      assert i != id && j != id;
      assert despues[i] == reservas[i] && despues[j] == reservas[j];
    }
  }

  /** The stored data the views read and write: the Estado table, the
      vehicles, the Reserva table, and each card's balance by card number. */
  class Agencia {
    const estadosVehiculo: set<string>
    const vehiculos: map<int, Vehiculo>
    var reservas: map<int, Reserva>
    var tarjetas: map<string, int>
    var proximoId: int

    ghost predicate Valid()
      reads this, vehiculos.Values
    {
      (forall k :: k in vehiculos ==> vehiculos[k].estados == estadosVehiculo && vehiculos[k].Valid()) &&
      (forall i, j :: i in vehiculos && j in vehiculos && i != j ==> vehiculos[i] != vehiculos[j]) &&
      (forall k :: k in reservas ==> k < proximoId && reservas[k].vehiculo in vehiculos)
    }

    constructor (estadosVehiculo: set<string>, vehiculos: map<int, Vehiculo>, tarjetas: map<string, int>)
      requires forall k :: k in vehiculos ==> vehiculos[k].estados == estadosVehiculo && vehiculos[k].Valid()
      requires forall i, j :: i in vehiculos && j in vehiculos && i != j ==> vehiculos[i] != vehiculos[j]
      ensures Valid()
      ensures this.estadosVehiculo == estadosVehiculo && this.vehiculos == vehiculos
      ensures reservas == map[] && this.tarjetas == tarjetas
    {
      this.estadosVehiculo := estadosVehiculo;
      this.vehiculos := vehiculos;
      this.reservas := map[];
      this.tarjetas := tarjetas;
      this.proximoId := 0;
    }

    /** Everything `crear_reserva` requires of the stored data for a request
        to go through: one Estado named "disponible", the vehicle in it, and
        dates and card that pass. */
    ghost predicate Admite(vehiculoId: int, fechaInicio: int, fechaFin: int, hoy: int, numeroTarjeta: string)
      reads this, vehiculos.Values
    {
      VehiculoDisponible(vehiculoId) && AdmiteDatos(vehiculoId, fechaInicio, fechaFin, hoy, numeroTarjeta)
    }

    /** Exactly one Estado is named "disponible" and the vehicle is in it. */
    ghost predicate VehiculoDisponible(vehiculoId: int)
      reads this, vehiculos.Values
    {
      |Coincidencias(estadosVehiculo, "disponible")| == 1 &&
      vehiculoId in vehiculos && vehiculos[vehiculoId].estado.Some? &&
      vehiculos[vehiculoId].estado.value in Coincidencias(estadosVehiculo, "disponible")
    }

    /** Valid dates, no overlap for either `clean`, and a known card. */
    ghost predicate AdmiteDatos(vehiculoId: int, fechaInicio: int, fechaFin: int, hoy: int, numeroTarjeta: string)
      reads this
    {
      hoy <= fechaInicio <= fechaFin &&
      !HayConflicto(reservas, vehiculoId, fechaInicio, fechaFin, None, BloqueoFormulario) &&
      numeroTarjeta in tarjetas &&
      !HayConflicto(reservas, vehiculoId, fechaInicio, fechaFin, None, BloqueoModelo)
    }

    /** `crear_reserva` (a POST). The card number and the driver's document
        are taken as given. The new reservation is Confirmada; no card is
        charged, and since `reservar()` passes "disponible" the vehicle keeps
        its state. */
    method CrearReserva(usuario: int, vehiculoId: int, fechaInicio: Option<int>, fechaFin: Option<int>,
                        ahora: int, numeroTarjeta: string, dniConductor: string)
      returns (r: ResultadoCreacion)
      requires Valid()
      modifies this, vehiculos.Values
      ensures Valid()
      ensures r.Creada? <==>
                fechaInicio.Some? && fechaFin.Some? &&
                old(Admite(vehiculoId, fechaInicio.value, fechaFin.value, Hoy(ahora), numeroTarjeta))
      ensures r.Creada? ==>
                r.id !in old(reservas) &&
                reservas == old(reservas)[r.id := Reserva(usuario, vehiculoId, fechaInicio.value, fechaFin.value,
                                                          "Confirmada", None, numeroTarjeta, dniConductor)]
      ensures !r.Creada? ==> reservas == old(reservas)
      ensures r == SinEstadoDisponible <==> |Coincidencias(estadosVehiculo, "disponible")| == 0
      ensures r == VehiculoNoEncontrado <==>
                |Coincidencias(estadosVehiculo, "disponible")| == 1 && !old(VehiculoDisponible(vehiculoId))
      ensures r == ErrorInterno <==>
                |Coincidencias(estadosVehiculo, "disponible")| > 1 ||
                (old(VehiculoDisponible(vehiculoId)) && CompararConNone(fechaInicio, fechaFin, Hoy(ahora)))
      ensures r.FormularioInvalido? <==>
                old(VehiculoDisponible(vehiculoId)) &&
                IsValid(fechaInicio, fechaFin, Hoy(ahora), vehiculoId, old(reservas)).Invalida?
      ensures r.FormularioInvalido? ==> r.errores != []
      ensures tarjetas == old(tarjetas)
      ensures forall k :: k in vehiculos ==> vehiculos[k].estado == old(vehiculos[k].estado)
      ensures old(SinDobleReserva(reservas)) ==> SinDobleReserva(reservas)
    {
      var m := Coincidencias(estadosVehiculo, "disponible");
      if |m| == 0 {
        return SinEstadoDisponible;
      }
      if |m| > 1 {
        return ErrorInterno;
      }
      var disponible :| disponible in m;
      SingletonSet(m, disponible);
      if vehiculoId !in vehiculos || vehiculos[vehiculoId].estado != Some(disponible) {
        return VehiculoNoEncontrado;
      }
      LowerOfLowercase("disponible");
      r := AtenderFormulario(usuario, vehiculoId, fechaInicio, fechaFin, Hoy(ahora), numeroTarjeta, dniConductor);
    }

    /** The POST branch of `crear_reserva` once the vehicle has been found:
        the form, then the unit of work. */
    method AtenderFormulario(usuario: int, vehiculoId: int, fechaInicio: Option<int>, fechaFin: Option<int>,
                             hoy: int, numeroTarjeta: string, dniConductor: string)
      returns (r: ResultadoCreacion)
      requires Valid() && vehiculoId in vehiculos
      requires |Coincidencias(estadosVehiculo, "disponible")| == 1
      requires Disponible(vehiculos[vehiculoId].estado)
      modifies this, vehiculos.Values
      ensures Valid()
      ensures r != SinEstadoDisponible && r != VehiculoNoEncontrado
      ensures r.Creada? <==>
                fechaInicio.Some? && fechaFin.Some? &&
                old(AdmiteDatos(vehiculoId, fechaInicio.value, fechaFin.value, hoy, numeroTarjeta))
      ensures r.Creada? ==>
                r.id !in old(reservas) &&
                reservas == old(reservas)[r.id := Reserva(usuario, vehiculoId, fechaInicio.value, fechaFin.value,
                                                          "Confirmada", None, numeroTarjeta, dniConductor)]
      ensures !r.Creada? ==> reservas == old(reservas)
      ensures r == ErrorInterno <==> CompararConNone(fechaInicio, fechaFin, hoy)
      ensures r.FormularioInvalido? <==> old(IsValid(fechaInicio, fechaFin, hoy, vehiculoId, reservas)).Invalida?
      ensures r.FormularioInvalido? ==>
                r.errores == old(IsValid(fechaInicio, fechaFin, hoy, vehiculoId, reservas)).errores
      ensures tarjetas == old(tarjetas)
      ensures forall k :: k in vehiculos ==> vehiculos[k].estado == old(vehiculos[k].estado)
      ensures old(SinDobleReserva(reservas)) ==> SinDobleReserva(reservas)
    {
      var errores := CleanReservaForm(fechaInicio, fechaFin, hoy, vehiculoId, reservas);
      match PostClean(fechaInicio, fechaFin, errores, hoy)
      case LanzaTypeError =>
        return ErrorInterno;
      case Invalida(e) =>
        return FormularioInvalido(e);
      case Valida =>
        var nueva := Reserva(usuario, vehiculoId, fechaInicio.value, fechaFin.value,
                             "Confirmada", None, numeroTarjeta, dniConductor);
        r := TransaccionCrear(nueva, hoy);
    }

    /** The `transaction.atomic()` block of `crear_reserva`, for a vehicle
        in the one state named "disponible". */
    method TransaccionCrear(nueva: Reserva, hoy: int) returns (r: ResultadoCreacion)
      requires Valid() && nueva.vehiculo in vehiculos && nueva.estado == "Confirmada"
      requires |Coincidencias(estadosVehiculo, "disponible")| == 1
      requires Disponible(vehiculos[nueva.vehiculo].estado)
      modifies this, vehiculos.Values
      ensures Valid()
      ensures r.Creada? || r.NoCreada?
      ensures r.Creada? <==>
                nueva.tarjeta in old(tarjetas) && hoy <= nueva.fechaInicio <= nueva.fechaFin &&
                !HayConflicto(old(reservas), nueva.vehiculo, nueva.fechaInicio, nueva.fechaFin, None, BloqueoModelo)
      ensures r.Creada? ==> r.id !in old(reservas) && reservas == old(reservas)[r.id := nueva]
      ensures !r.Creada? ==> reservas == old(reservas)
      ensures tarjetas == old(tarjetas)
      ensures forall k :: k in vehiculos ==> vehiculos[k].estado == old(vehiculos[k].estado)
      ensures old(SinDobleReserva(reservas)) ==> SinDobleReserva(reservas)
    {
      if nueva.tarjeta !in tarjetas {
        return NoCreada(TarjetaInexistente);
      }
      var error := Clean(nueva, None, hoy, reservas);
      if error.Some? {
        return NoCreada(Validacion(error.value));
      }
      var antes := reservas;
      var id := proximoId;
      reservas := reservas[id := nueva];
      proximoId := proximoId + 1;
      var v := vehiculos[nueva.vehiculo];
      var reservado := v.Reservar();
      if reservado == Retorna(true) {
        r := Creada(id);
        if SinDobleReserva(antes) {
          InsertarSinDobleReserva(antes, id, nueva, BloqueoModelo);
        }
      } else {
        // The branch that deletes the new row again cannot be taken: the
        // vehicle was fetched in the one state named "disponible", and
        // `reservar()` repeats that very lookup.
        assert false;
      }
    }

    /** `reserva.save()` of a cancelled reservation: `clean` runs first, and
        only a reservation it accepts is written. */
    method GuardarCancelacion(pk: int, despues: Reserva, hoy: int) returns (error: Option<ErrorReserva>)
      requires Valid() && pk in reservas && despues.vehiculo == reservas[pk].vehiculo
      requires despues.estado != "Confirmada"
      modifies this
      ensures Valid()
      ensures error.None? <==>
                hoy <= despues.fechaInicio <= despues.fechaFin &&
                !HayConflicto(old(reservas), despues.vehiculo, despues.fechaInicio, despues.fechaFin, Some(pk), BloqueoModelo)
      ensures error.None? ==> reservas == old(reservas)[pk := despues]
      ensures error.Some? ==> reservas == old(reservas)
      ensures error != Some(InicioPasado) <==> hoy <= despues.fechaInicio
      ensures tarjetas == old(tarjetas) && proximoId == old(proximoId)
      ensures old(SinDobleReserva(reservas)) ==> SinDobleReserva(reservas)
    {
      error := Clean(despues, Some(pk), hoy, reservas);
      if error.None? {
        if SinDobleReserva(reservas) {
          CancelarSinDobleReserva(reservas, pk, despues);
        }
        reservas := reservas[pk := despues];
      }
    }

    /** `reserva.vehiculo.liberar()` on the vehicle `vid`; no other vehicle changes. */
    method LiberarVehiculo(vid: int) returns (r: Resultado)
      requires Valid() && vid in vehiculos
      modifies vehiculos[vid]
      ensures Valid()
      ensures EfectoLiberar(estadosVehiculo, old(vehiculos[vid].estado), r, vehiculos[vid].estado)
      ensures forall k :: k in vehiculos && k != vid ==> vehiculos[k].estado == old(vehiculos[k].estado)
      ensures r == Excepcion ==> (forall k :: k in vehiculos ==> vehiculos[k].estado == old(vehiculos[k].estado))
      ensures r == Excepcion <==> LiberarLanza(estadosVehiculo, old(vehiculos[vid].estado))
    {
      var v := vehiculos[vid];
      r := v.Liberar();
    }

    /** `cancelar_reserva`: the owner cancels at least 24 hours ahead; the
        reservation becomes Cancelada, its card is credited with the refund
        (`calcular_Reembolso`, taken as the function `reembolso`) and the
        vehicle is released if it can be; the cancellation stands either way. */
    method CancelarReserva(usuario: int, pk: int, ahora: int, reembolso: Reserva -> int)
      returns (r: ResultadoCancelacion)
      requires Valid()
      modifies this, vehiculos.Values
      ensures Valid()
      ensures r == NoEncontrada <==> pk !in old(reservas) || old(reservas)[pk].usuario != usuario
      ensures r == FueraDePlazo <==>
                pk in old(reservas) && old(reservas)[pk].usuario == usuario &&
                !PuedeCancelarUsuario(old(reservas)[pk].fechaInicio, ahora)
      ensures r.Cancelada? <==>
                pk in old(reservas) && old(reservas)[pk].usuario == usuario &&
                var antes := old(reservas)[pk];
                PuedeCancelarUsuario(antes.fechaInicio, ahora) &&
                antes.fechaInicio <= antes.fechaFin &&
                !HayConflicto(old(reservas), antes.vehiculo, antes.fechaInicio, antes.fechaFin, Some(pk), BloqueoModelo) &&
                antes.tarjeta in old(tarjetas) &&
                !LiberarLanza(estadosVehiculo, old(vehiculos[antes.vehiculo].estado))
      ensures r.Cancelada? ==>
                var antes := old(reservas)[pk];
                var despues := antes.(estado := "Cancelada", motivoCancelacion := Some("Cancelada desde Lista"));
                reservas == old(reservas)[pk := despues] &&
                antes.fechaInicio <= antes.fechaFin &&
                !HayConflicto(old(reservas), antes.vehiculo, antes.fechaInicio, antes.fechaFin, Some(pk), BloqueoModelo) &&
                antes.tarjeta in old(tarjetas) &&
                tarjetas == old(tarjetas)[antes.tarjeta := old(tarjetas)[antes.tarjeta] + reembolso(despues)] &&
                EfectoLiberar(estadosVehiculo, old(vehiculos[antes.vehiculo].estado), Retorna(r.vehiculoLiberado),
                              vehiculos[antes.vehiculo].estado) &&
                (forall k :: k in vehiculos && k != antes.vehiculo ==> vehiculos[k].estado == old(vehiculos[k].estado))
      ensures !r.Cancelada? ==>
                reservas == old(reservas) && tarjetas == old(tarjetas) && (forall k :: k in vehiculos ==> vehiculos[k].estado == old(vehiculos[k].estado))
      ensures r != NoCancelada(Validacion(InicioPasado))
      ensures old(SinDobleReserva(reservas)) ==> SinDobleReserva(reservas)
    {
      if pk !in reservas || reservas[pk].usuario != usuario {
        return NoEncontrada;
      }
      var antes := reservas[pk];
      if !PuedeCancelarUsuario(antes.fechaInicio, ahora) {
        return FueraDePlazo;
      }
      PuedeCancelarAntesDelInicio(antes.fechaInicio, ahora);

      r := TransaccionUsuario(pk, Hoy(ahora), reembolso);
    }

    /** The `transaction.atomic()` block of `cancelar_reserva`, with
        `_Realizar_Reembolso` inside it. */
    method TransaccionUsuario(pk: int, hoy: int, reembolso: Reserva -> int) returns (r: ResultadoCancelacion)
      requires Valid() && pk in reservas && hoy <= reservas[pk].fechaInicio
      modifies this, vehiculos.Values
      ensures Valid()
      ensures r.Cancelada? || r.NoCancelada?
      ensures r.Cancelada? <==>
                var antes := old(reservas)[pk];
                antes.fechaInicio <= antes.fechaFin &&
                !HayConflicto(old(reservas), antes.vehiculo, antes.fechaInicio, antes.fechaFin, Some(pk), BloqueoModelo) &&
                antes.tarjeta in old(tarjetas) &&
                !LiberarLanza(estadosVehiculo, old(vehiculos[antes.vehiculo].estado))
      ensures r.Cancelada? ==>
                var antes := old(reservas)[pk];
                var despues := antes.(estado := "Cancelada", motivoCancelacion := Some("Cancelada desde Lista"));
                reservas == old(reservas)[pk := despues] &&
                antes.fechaInicio <= antes.fechaFin &&
                !HayConflicto(old(reservas), antes.vehiculo, antes.fechaInicio, antes.fechaFin, Some(pk), BloqueoModelo) &&
                antes.tarjeta in old(tarjetas) &&
                tarjetas == old(tarjetas)[antes.tarjeta := old(tarjetas)[antes.tarjeta] + reembolso(despues)] &&
                EfectoLiberar(estadosVehiculo, old(vehiculos[antes.vehiculo].estado), Retorna(r.vehiculoLiberado),
                              vehiculos[antes.vehiculo].estado) &&
                (forall k :: k in vehiculos && k != antes.vehiculo ==> vehiculos[k].estado == old(vehiculos[k].estado))
      ensures !r.Cancelada? ==>
                reservas == old(reservas) && tarjetas == old(tarjetas) &&
                (forall k :: k in vehiculos ==> vehiculos[k].estado == old(vehiculos[k].estado))
      ensures r != NoCancelada(Validacion(InicioPasado))
      ensures old(SinDobleReserva(reservas)) ==> SinDobleReserva(reservas)
    {
      var reservasAntes, tarjetasAntes := reservas, tarjetas;
      var antes := reservas[pk];
      var despues := antes.(estado := "Cancelada", motivoCancelacion := Some("Cancelada desde Lista"));
      var error := GuardarCancelacion(pk, despues, hoy);
      if error.Some? {
        return NoCancelada(Validacion(error.value));
      }

      // _Realizar_Reembolso
      var monto := reembolso(despues);
      if despues.tarjeta !in tarjetas {
        reservas := reservasAntes;
        return NoCancelada(TarjetaInexistente);
      }
      tarjetas := tarjetas[despues.tarjeta := tarjetas[despues.tarjeta] + monto];

      var liberado := LiberarVehiculo(antes.vehiculo);
      if liberado == Excepcion {
        reservas, tarjetas := reservasAntes, tarjetasAntes;
        return NoCancelada(EstadoAmbiguo);
      }
      return Cancelada(liberado.valor);
    }

    /** `admin_cancelar_reserva` (a POST): staff only, with a valid reason;
        the reservation becomes "Cancelada por Admin" with the stripped reason
        and the vehicle is released if it can be. No card is credited. */
    method AdminCancelarReserva(esStaff: bool, pk: int, motivo: Option<string>, ahora: int)
      returns (r: ResultadoCancelacion)
      requires Valid()
      modifies this, vehiculos.Values
      ensures Valid()
      ensures r == SinPermiso <==> !esStaff
      ensures r == NoEncontrada <==> esStaff && pk !in old(reservas)
      ensures r.MotivoInvalido? <==> esStaff && pk in old(reservas) && CleanCancelarReservaForm(motivo).Err?
      ensures r.Cancelada? <==>
                esStaff && pk in old(reservas) && CleanCancelarReservaForm(motivo).Ok? &&
                var antes := old(reservas)[pk];
                Hoy(ahora) <= antes.fechaInicio <= antes.fechaFin &&
                !HayConflicto(old(reservas), antes.vehiculo, antes.fechaInicio, antes.fechaFin, Some(pk), BloqueoModelo) &&
                !LiberarLanza(estadosVehiculo, old(vehiculos[antes.vehiculo].estado))
      ensures r.Cancelada? ==>
                var antes := old(reservas)[pk];
                var despues := antes.(estado := "Cancelada por Admin",
                                      motivoCancelacion := Some(CleanCancelarReservaForm(motivo).value));
                CleanCancelarReservaForm(motivo).Ok? &&
                reservas == old(reservas)[pk := despues] &&
                Hoy(ahora) <= antes.fechaInicio <= antes.fechaFin &&
                !HayConflicto(old(reservas), antes.vehiculo, antes.fechaInicio, antes.fechaFin, Some(pk), BloqueoModelo) &&
                EfectoLiberar(estadosVehiculo, old(vehiculos[antes.vehiculo].estado), Retorna(r.vehiculoLiberado),
                              vehiculos[antes.vehiculo].estado) &&
                (forall k :: k in vehiculos && k != antes.vehiculo ==> vehiculos[k].estado == old(vehiculos[k].estado))
      ensures !r.Cancelada? ==> reservas == old(reservas) && (forall k :: k in vehiculos ==> vehiculos[k].estado == old(vehiculos[k].estado))
      ensures tarjetas == old(tarjetas)
      ensures r != FueraDePlazo
      ensures old(SinDobleReserva(reservas)) ==> SinDobleReserva(reservas)
    {
      if !esStaff {
        return SinPermiso;
      }
      if pk !in reservas {
        return NoEncontrada;
      }
      var antes := reservas[pk];
      var form := CleanCancelarReservaForm(motivo);
      if form.Err? {
        return MotivoInvalido(form.error);
      }

      r := TransaccionAdmin(pk, form.value, Hoy(ahora));
    }

    /** The `transaction.atomic()` block of `admin_cancelar_reserva`. */
    method TransaccionAdmin(pk: int, motivo: string, hoy: int) returns (r: ResultadoCancelacion)
      requires Valid() && pk in reservas
      modifies this, vehiculos.Values
      ensures Valid()
      ensures r.Cancelada? || r.NoCancelada?
      ensures r.Cancelada? <==>
                var antes := old(reservas)[pk];
                hoy <= antes.fechaInicio <= antes.fechaFin &&
                !HayConflicto(old(reservas), antes.vehiculo, antes.fechaInicio, antes.fechaFin, Some(pk), BloqueoModelo) &&
                !LiberarLanza(estadosVehiculo, old(vehiculos[antes.vehiculo].estado))
      ensures r.Cancelada? ==>
                var antes := old(reservas)[pk];
                var despues := antes.(estado := "Cancelada por Admin", motivoCancelacion := Some(motivo));
                reservas == old(reservas)[pk := despues] &&
                hoy <= antes.fechaInicio <= antes.fechaFin &&
                !HayConflicto(old(reservas), antes.vehiculo, antes.fechaInicio, antes.fechaFin, Some(pk), BloqueoModelo) &&
                EfectoLiberar(estadosVehiculo, old(vehiculos[antes.vehiculo].estado), Retorna(r.vehiculoLiberado),
                              vehiculos[antes.vehiculo].estado) &&
                (forall k :: k in vehiculos && k != antes.vehiculo ==> vehiculos[k].estado == old(vehiculos[k].estado))
      ensures !r.Cancelada? ==> reservas == old(reservas) && (forall k :: k in vehiculos ==> vehiculos[k].estado == old(vehiculos[k].estado))
      ensures tarjetas == old(tarjetas)
      ensures old(SinDobleReserva(reservas)) ==> SinDobleReserva(reservas)
    {
      var reservasAntes := reservas;
      var antes := reservas[pk];
      var despues := antes.(estado := "Cancelada por Admin", motivoCancelacion := Some(motivo));
      var error := GuardarCancelacion(pk, despues, hoy);
      if error.Some? {
        return NoCancelada(Validacion(error.value));
      }

      var liberado := LiberarVehiculo(antes.vehiculo);
      if liberado == Excepcion {
        reservas := reservasAntes;
        return NoCancelada(EstadoAmbiguo);
      }
      return Cancelada(liberado.valor);
    }
  }
}
