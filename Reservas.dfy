/** The reservation model of reservas/models.py: the record, the date and
    overlap validation `clean` (which `save` runs first), `calcular_total`
    and the 24-hour user-cancellation cutoff `puede_cancelar_usuario`.

    Dates are day numbers counted from the epoch, instants are seconds since
    the epoch, money is integer cents. */
module Reservas {
  import opened Wrappers

  const SegundosPorHora: int := 3600
  const SegundosPorDia: int := 86400

  /** `timezone.now().date()`: the day of an instant. */
  function Hoy(ahora: int): (d: int)
    ensures d * SegundosPorDia <= ahora < d * SegundosPorDia + SegundosPorDia
  {
    ahora / SegundosPorDia
  }

  /** A row of the Reserva table. `tarjeta` (the card number) and
      `dniConductor` are the fields the views set. */
  datatype Reserva = Reserva(
    usuario: int,
    vehiculo: int,
    fechaInicio: int,
    fechaFin: int,
    estado: string,
    motivoCancelacion: Option<string>,
    tarjeta: string,
    dniConductor: string)

  /** The reservation states `Reserva.clean` treats as occupying a vehicle. */
  const BloqueoModelo: set<string> := {"Cancelada", "Confirmada"}
  /** The reservation states `ReservaForm.clean` treats as occupying a vehicle. */
  const BloqueoFormulario: set<string> := {"Pendiente", "Confirmada"}

  // ---------------------------------------------------------------------
  // Overlap

  /** The inclusive interval test of both `clean` methods. */
  predicate Solapan(inicio1: int, fin1: int, inicio2: int, fin2: int) {
    inicio1 <= fin2 && fin1 >= inicio2
  }

  predicate EnRango(d: int, inicio: int, fin: int) {
    inicio <= d <= fin
  }

  /** For well-formed ranges the test holds exactly when the two ranges
      share a day. */
  lemma SolapanSiCompartenDia(inicio1: int, fin1: int, inicio2: int, fin2: int)
    requires inicio1 <= fin1 && inicio2 <= fin2
    ensures Solapan(inicio1, fin1, inicio2, fin2) <==>
            exists d :: EnRango(d, inicio1, fin1) && EnRango(d, inicio2, fin2)
  {
    if Solapan(inicio1, fin1, inicio2, fin2) {
      var d := if inicio1 < inicio2 then inicio2 else inicio1;
      assert EnRango(d, inicio1, fin1) && EnRango(d, inicio2, fin2);
    }
  }

  /** Ranges that touch on one day conflict; the test does not depend on
      which reservation is the new one. */
  lemma SolapanAlTocarse(a: int, b: int, c: int)
    requires a <= b <= c
    ensures Solapan(a, b, b, c) && Solapan(b, c, a, b)
  {
  }

  /** `otra` occupies `vehiculo` on some day of [inicio, fin]. */
  predicate Conflicto(otra: Reserva, vehiculo: int, inicio: int, fin: int, bloqueo: set<string>) {
    otra.vehiculo == vehiculo && otra.estado in bloqueo &&
    Solapan(inicio, fin, otra.fechaInicio, otra.fechaFin)
  }

  /** Some reservation other than `excluir` occupies `vehiculo` on [inicio, fin]. */
  predicate HayConflicto(reservas: map<int, Reserva>, vehiculo: int, inicio: int, fin: int,
                         excluir: Option<int>, bloqueo: set<string>)
  {
    exists id :: id in reservas && Some(id) != excluir && Conflicto(reservas[id], vehiculo, inicio, fin, bloqueo)
  }

  /** A conflict against a set of blocking states is one against every
      larger set. */
  lemma HayConflictoMonotono(reservas: map<int, Reserva>, vehiculo: int, inicio: int, fin: int,
                             excluir: Option<int>, bloqueo: set<string>, mayor: set<string>)
    requires bloqueo <= mayor
    requires HayConflicto(reservas, vehiculo, inicio, fin, excluir, bloqueo)
    ensures HayConflicto(reservas, vehiculo, inicio, fin, excluir, mayor)
  {
    var id :| id in reservas && Some(id) != excluir && Conflicto(reservas[id], vehiculo, inicio, fin, bloqueo);
    assert Conflicto(reservas[id], vehiculo, inicio, fin, mayor);
  }

  /** The query `Reserva.objects.filter(vehiculo=..., estado__nombre__in=bloqueo)`,
      less the row `excluir`. */
  function Candidatas(reservas: map<int, Reserva>, vehiculo: int, excluir: Option<int>,
                      bloqueo: set<string>): set<int>
  {
    set k | k in reservas && Some(k) != excluir && reservas[k].vehiculo == vehiculo && reservas[k].estado in bloqueo
  }

  lemma ElementoExiste(s: set<int>)
    requires s != {}
    ensures exists x :: x in s
  {
    if forall x :: x !in s {
      assert false;
    }
  }

  /** The overlap scan shared by both `clean` methods: go through the
      vehicle's reservations in a blocking state (all but `excluir`) and stop
      at the first that overlaps [inicio, fin]. */
  method BuscarConflicto(reservas: map<int, Reserva>, vehiculo: int, inicio: int, fin: int,
                         excluir: Option<int>, bloqueo: set<string>) returns (c: Option<int>)
    ensures c.Some? ==> c.value in reservas && Some(c.value) != excluir &&
                        Conflicto(reservas[c.value], vehiculo, inicio, fin, bloqueo)
    ensures c.None? <==> !HayConflicto(reservas, vehiculo, inicio, fin, excluir, bloqueo)
  {
    var existentes := Candidatas(reservas, vehiculo, excluir, bloqueo);
    var pendientes := existentes;
    while pendientes != {}
      invariant pendientes <= existentes
      invariant forall k :: k in existentes && k !in pendientes ==>
                  !Solapan(inicio, fin, reservas[k].fechaInicio, reservas[k].fechaFin)
      decreases pendientes
    {
      ElementoExiste(pendientes);
      var k :| k in pendientes;
      if Solapan(inicio, fin, reservas[k].fechaInicio, reservas[k].fechaFin) {
        return Some(k);
      }
      pendientes := pendientes - {k};
    }
    return None;
  }

  // ---------------------------------------------------------------------
  // Validation (`Reserva.clean`)

  /** The ValidationError `Reserva.clean` raises. */
  datatype ErrorReserva = InicioPasado | FinAntesDeInicio | VehiculoReservado(conflicto: int)

  /** `Reserva.clean`: start not before today, end not before start, and no
      other reservation of the vehicle in state Cancelada or Confirmada
      overlapping; the first failing check is the one reported. `propioId`
      is the reservation's own id (None before its first save). */
  method Clean(r: Reserva, propioId: Option<int>, hoy: int, reservas: map<int, Reserva>)
    returns (error: Option<ErrorReserva>)
    ensures error == Some(InicioPasado) <==> r.fechaInicio < hoy
    ensures error == Some(FinAntesDeInicio) <==> hoy <= r.fechaInicio && r.fechaFin < r.fechaInicio
    ensures error.Some? && error.value.VehiculoReservado? ==>
              hoy <= r.fechaInicio <= r.fechaFin &&
              error.value.conflicto in reservas && Some(error.value.conflicto) != propioId &&
              Conflicto(reservas[error.value.conflicto], r.vehiculo, r.fechaInicio, r.fechaFin, BloqueoModelo)
    ensures error.None? <==>
              hoy <= r.fechaInicio <= r.fechaFin &&
              !HayConflicto(reservas, r.vehiculo, r.fechaInicio, r.fechaFin, propioId, BloqueoModelo)
  {
    if r.fechaInicio < hoy {
      return Some(InicioPasado);
    }
    if r.fechaFin < r.fechaInicio {
      return Some(FinAntesDeInicio);
    }
    var c := BuscarConflicto(reservas, r.vehiculo, r.fechaInicio, r.fechaFin, propioId, BloqueoModelo);
    if c.Some? {
      return Some(VehiculoReservado(c.value));
    }
    return None;
  }

  // ---------------------------------------------------------------------
  // Price and cancellation cutoff

  /** `calcular_total`: the inclusive number of days times the daily rate. */
  function CalcularTotal(fechaInicio: int, fechaFin: int, tarifaDiaria: int): (total: int)
    ensures fechaInicio <= fechaFin && tarifaDiaria >= 0 ==> total >= tarifaDiaria
  {
    (fechaFin - fechaInicio + 1) * tarifaDiaria
  }

  /** A one-day reservation costs one day's rate, and splitting a stay at
      any day splits its price: together these fix the total as the rate
      times the number of days. */
  lemma CalcularTotalPorTramos(inicio: int, medio: int, fin: int, tarifa: int)
    requires inicio <= medio < fin
    ensures CalcularTotal(inicio, inicio, tarifa) == tarifa
    ensures CalcularTotal(inicio, fin, tarifa) ==
            CalcularTotal(inicio, medio, tarifa) + CalcularTotal(medio + 1, fin, tarifa)
  {
    var a, b := medio - inicio + 1, fin - medio;
    assert (a + b) * tarifa == a * tarifa + b * tarifa;
  }

  /** `puede_cancelar_usuario`: midnight at the start of `fechaInicio`, minus
      now, is at least 24 hours. */
  function PuedeCancelarUsuario(fechaInicio: int, ahora: int): bool {
    fechaInicio * SegundosPorDia - ahora >= 24 * SegundosPorHora
  }

  /** The cutoff in calendar terms: cancelling is allowed on any day up to
      two days before the start, and on the day before only at its very
      first second (midnight). */
  lemma PuedeCancelarPorDias(fechaInicio: int, ahora: int)
    ensures PuedeCancelarUsuario(fechaInicio, ahora) <==>
            Hoy(ahora) < fechaInicio - 1 ||
            (Hoy(ahora) == fechaInicio - 1 && ahora % SegundosPorDia == 0)
  {
    var q, s := ahora / SegundosPorDia, ahora % SegundosPorDia;
    assert ahora == q * SegundosPorDia + s && 0 <= s < SegundosPorDia;
    if q < fechaInicio - 1 {
      assert q * SegundosPorDia <= (fechaInicio - 2) * SegundosPorDia;
    } else if q >= fechaInicio {
      assert q * SegundosPorDia >= fechaInicio * SegundosPorDia;
    }
  }

  /** A reservation the user may still cancel has not started yet, so the
      start-date check of `clean` passes when the cancellation is saved. */
  lemma PuedeCancelarAntesDelInicio(fechaInicio: int, ahora: int)
    requires PuedeCancelarUsuario(fechaInicio, ahora)
    ensures Hoy(ahora) < fechaInicio
  {
    PuedeCancelarPorDias(fechaInicio, ahora);
  }

  /** Whoever may cancel at some instant may also cancel at any earlier one. */
  lemma PuedeCancelarAntes(fechaInicio: int, antes: int, ahora: int)
    requires antes <= ahora && PuedeCancelarUsuario(fechaInicio, ahora)
    ensures PuedeCancelarUsuario(fechaInicio, antes)
  {
  }
}
