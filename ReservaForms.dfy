/** The forms of reservas/forms.py: `ReservaForm.clean`, which adds errors
    to the form instead of raising, and `CancelarReservaForm`, whose only
    field is a mandatory cancellation reason. */
module ReservaForms {
  import opened Wrappers
  import opened Texto
  import opened Reservas

  /** An error added to the reservation form: on `fecha_inicio`, on
      `fecha_fin`, the form-wide overlap error, a date field's own error
      when that date is missing or is not a date, or the `ValidationError`
      that `Reserva.clean` raised on the form's instance. */
  datatype ErrorFormulario =
    | ErrorFechaInicio | ErrorFechaFin | ErrorSolapamiento | CampoObligatorio
    | ErrorDelModelo(error: ErrorReserva)

  /** The two date errors of `ReservaForm.clean`, in the order it adds them. */
  function ErroresDeFechas(inicio: int, fin: int, hoy: int): (errores: seq<ErrorFormulario>)
    ensures ErrorFechaInicio in errores <==> inicio < hoy
    ensures ErrorFechaFin in errores <==> fin < inicio
    ensures forall x :: x in errores ==> x == ErrorFechaInicio || x == ErrorFechaFin
    ensures |errores| <= 2
  {
    (if inicio < hoy then [ErrorFechaInicio] else []) +
    (if fin < inicio then [ErrorFechaFin] else [])
  }

  /** `ReservaForm.clean`: with both dates present, a start before today and
      an end before the start are each reported on their field, and one
      overlap with a reservation of the vehicle in state Pendiente or
      Confirmada adds one form-wide error. */
  method CleanReservaForm(fechaInicio: Option<int>, fechaFin: Option<int>, hoy: int,
                          vehiculo: int, reservas: map<int, Reserva>)
    returns (errores: seq<ErrorFormulario>)
    ensures fechaInicio.None? || fechaFin.None? ==> errores == []
    ensures fechaInicio.Some? && fechaFin.Some? ==>
              errores ==
                ErroresDeFechas(fechaInicio.value, fechaFin.value, hoy) +
                (if HayConflicto(reservas, vehiculo, fechaInicio.value, fechaFin.value, None, BloqueoFormulario)
                 then [ErrorSolapamiento] else [])
    ensures errores == ErroresDeClean(fechaInicio, fechaFin, hoy, vehiculo, reservas)
  {
    errores := [];
    if fechaInicio.Some? && fechaFin.Some? {
      var inicio, fin := fechaInicio.value, fechaFin.value;
      if inicio < hoy {
        errores := errores + [ErrorFechaInicio];
      }
      if fin < inicio {
        errores := errores + [ErrorFechaFin];
      }
      var c := BuscarConflicto(reservas, vehiculo, inicio, fin, None, BloqueoFormulario);
      if c.Some? {
        errores := errores + [ErrorSolapamiento];
      }
    }
  }

  /** Unlike `Reserva.clean`, the form reports every failing check: a range
      that starts in the past and ends before it starts gets both field
      errors, and the overlap error appears at most once. */
  lemma {:induction false} ErroresSeAcumulan(inicio: int, fin: int, hoy: int, vehiculo: int, reservas: map<int, Reserva>)
    ensures var errores := ErroresDeFechas(inicio, fin, hoy) +
                           (if HayConflicto(reservas, vehiculo, inicio, fin, None, BloqueoFormulario)
                            then [ErrorSolapamiento] else []);
            (ErrorFechaInicio in errores <==> inicio < hoy) &&
            (ErrorFechaFin in errores <==> fin < inicio) &&
            (ErrorSolapamiento in errores <==> HayConflicto(reservas, vehiculo, inicio, fin, None, BloqueoFormulario)) &&
            multiset(errores)[ErrorSolapamiento] <= 1 &&
            CampoObligatorio !in errores
  {
    var fechas := ErroresDeFechas(inicio, fin, hoy);
    assert multiset(fechas)[ErrorSolapamiento] == 0;
  }

  /** The form passes exactly when the dates are in order, do not start in
      the past and overlap no Pendiente or Confirmada reservation. */
  lemma {:induction false} FormularioSinErrores(inicio: int, fin: int, hoy: int, vehiculo: int, reservas: map<int, Reserva>)
    ensures ErroresDeFechas(inicio, fin, hoy) +
            (if HayConflicto(reservas, vehiculo, inicio, fin, None, BloqueoFormulario) then [ErrorSolapamiento] else []) == []
            <==>
            hoy <= inicio <= fin && !HayConflicto(reservas, vehiculo, inicio, fin, None, BloqueoFormulario)
  {
    var fechas := ErroresDeFechas(inicio, fin, hoy);
    if fechas != [] {
      assert fechas[0] in fechas;
    }
  }

  /** The errors `ReservaForm.clean` adds, as `CleanReservaForm` computes them. */
  function ErroresDeClean(fechaInicio: Option<int>, fechaFin: Option<int>, hoy: int,
                          vehiculo: int, reservas: map<int, Reserva>): seq<ErrorFormulario>
  {
    if fechaInicio.Some? && fechaFin.Some? then
      ErroresDeFechas(fechaInicio.value, fechaFin.value, hoy) +
      (if HayConflicto(reservas, vehiculo, fechaInicio.value, fechaFin.value, None, BloqueoFormulario)
       then [ErrorSolapamiento] else [])
    else []
  }

  // ---------------------------------------------------------------------
  // is_valid: ReservaForm is a ModelForm, so after its own `clean` the form
  // copies the cleaned dates onto an unsaved `Reserva` and runs
  // `Reserva.clean` on it.

  /** How `form.is_valid()` ends: valid, invalid with the form's errors, or
      with a `TypeError` escaping it. */
  datatype Validez = Valida | Invalida(errores: seq<ErrorFormulario>) | LanzaTypeError

  /** The date field's own error, once per missing date. */
  function Obligatorios(fechaInicio: Option<int>, fechaFin: Option<int>): seq<ErrorFormulario> {
    (if fechaInicio.None? then [CampoObligatorio] else []) +
    (if fechaFin.None? then [CampoObligatorio] else [])
  }

  /** The date the instance receives: `add_error` on a field deletes it from
      `cleaned_data`, and a date absent from `cleaned_data` is not copied,
      so the instance keeps None. */
  function EnInstancia(fecha: Option<int>, error: ErrorFormulario, errores: seq<ErrorFormulario>): Option<int> {
    if error in errores then None else fecha
  }

  /** `Reserva.clean` as written, on the form's instance. No vehicle is set
      on it, so the overlap scan is skipped; an unset date is None, and
      comparing None with a date raises `TypeError`. */
  function CleanInstancia(inicio: Option<int>, fin: Option<int>, hoy: int): Validez {
    if inicio.None? then LanzaTypeError
    else if inicio.value < hoy then Invalida([ErrorDelModelo(InicioPasado)])
    else if fin.None? then LanzaTypeError
    else if fin.value < inicio.value then Invalida([ErrorDelModelo(FinAntesDeInicio)])
    else Valida
  }

  /** `Reserva.clean` with each comparison skipped when a date it compares
      is unset. */
  function CleanInstanciaGuardada(inicio: Option<int>, fin: Option<int>, hoy: int): Validez {
    if inicio.Some? && inicio.value < hoy then Invalida([ErrorDelModelo(InicioPasado)])
    else if inicio.Some? && fin.Some? && fin.value < inicio.value then Invalida([ErrorDelModelo(FinAntesDeInicio)])
    else Valida
  }

  /** The verdict from the errors gathered so far and the instance's clean,
      whose exception escapes `is_valid`. */
  function Juntar(previos: seq<ErrorFormulario>, modelo: Validez): Validez {
    match modelo
    case LanzaTypeError => LanzaTypeError
    case Invalida(e) => Invalida(previos + e)
    case Valida => if previos == [] then Valida else Invalida(previos)
  }

  /** What is left of `is_valid` once `ReservaForm.clean` has added
      `errores`, as written. */
  function PostClean(fechaInicio: Option<int>, fechaFin: Option<int>, errores: seq<ErrorFormulario>, hoy: int): Validez {
    Juntar(Obligatorios(fechaInicio, fechaFin) + errores,
           CleanInstancia(EnInstancia(fechaInicio, ErrorFechaInicio, errores),
                          EnInstancia(fechaFin, ErrorFechaFin, errores), hoy))
  }

  /** `PostClean` with the None-guarded instance clean. */
  function PostCleanGuardado(fechaInicio: Option<int>, fechaFin: Option<int>, errores: seq<ErrorFormulario>, hoy: int): Validez {
    Juntar(Obligatorios(fechaInicio, fechaFin) + errores,
           CleanInstanciaGuardada(EnInstancia(fechaInicio, ErrorFechaInicio, errores),
                                  EnInstancia(fechaFin, ErrorFechaFin, errores), hoy))
  }

  /** The inputs on which `is_valid` raises: a start date that is missing or
      not a date, a start before today or an end before the start when both
      are given, or a missing end with a start that is not in the past. */
  predicate CompararConNone(fechaInicio: Option<int>, fechaFin: Option<int>, hoy: int) {
    fechaInicio.None? ||
    (fechaFin.None? && hoy <= fechaInicio.value) ||
    (fechaFin.Some? && (fechaInicio.value < hoy || fechaFin.value < fechaInicio.value))
  }

  /** `form.is_valid()` as written. It raises exactly on `CompararConNone`:
      each date error the form's `clean` reports removes that date from the
      instance, and `Reserva.clean` then compares None. It is valid exactly
      when both dates are given, today <= start <= end, and no overlap is
      found. A missing end with a start in the past is the one date error
      reported as form errors. */
  function IsValid(fechaInicio: Option<int>, fechaFin: Option<int>, hoy: int,
                   vehiculo: int, reservas: map<int, Reserva>): (v: Validez)
    ensures v.LanzaTypeError? <==> CompararConNone(fechaInicio, fechaFin, hoy)
    ensures v.Valida? <==>
              fechaInicio.Some? && fechaFin.Some? && hoy <= fechaInicio.value <= fechaFin.value &&
              !HayConflicto(reservas, vehiculo, fechaInicio.value, fechaFin.value, None, BloqueoFormulario)
    ensures v.Invalida? ==> v.errores != []
    ensures fechaInicio.Some? && fechaFin.None? && fechaInicio.value < hoy ==>
              v == Invalida([CampoObligatorio, ErrorDelModelo(InicioPasado)])
  {
    PostClean(fechaInicio, fechaFin, ErroresDeClean(fechaInicio, fechaFin, hoy, vehiculo, reservas), hoy)
  }

  /** `is_valid` with the guarded instance clean never raises. Its verdict
      is `IsValid`'s wherever that one does not raise (`CoincidenSinExcepcion`),
      and otherwise it reports the errors: every date error, and the
      "required" error of each missing date. */
  function IsValidCorregido(fechaInicio: Option<int>, fechaFin: Option<int>, hoy: int,
                            vehiculo: int, reservas: map<int, Reserva>): (v: Validez)
    ensures !v.LanzaTypeError?
    ensures v.Valida? <==>
              fechaInicio.Some? && fechaFin.Some? && hoy <= fechaInicio.value <= fechaFin.value &&
              !HayConflicto(reservas, vehiculo, fechaInicio.value, fechaFin.value, None, BloqueoFormulario)
    ensures v.Invalida? ==> v.errores != []
    ensures v.Invalida? ==>
              (CampoObligatorio in v.errores <==> fechaInicio.None? || fechaFin.None?) &&
              (ErrorFechaInicio in v.errores || ErrorDelModelo(InicioPasado) in v.errores <==>
                 fechaInicio.Some? && fechaInicio.value < hoy) &&
              (ErrorFechaFin in v.errores <==>
                 fechaInicio.Some? && fechaFin.Some? && fechaFin.value < fechaInicio.value)
  {
    if fechaInicio.Some? && fechaFin.Some? then
      var conflicto := HayConflicto(reservas, vehiculo, fechaInicio.value, fechaFin.value, None, BloqueoFormulario);
      GuardadoConFechas(fechaInicio.value, fechaFin.value, hoy, conflicto);
      PostCleanGuardado(fechaInicio, fechaFin, ErroresDeClean(fechaInicio, fechaFin, hoy, vehiculo, reservas), hoy)
    else
      GuardadoSinFecha(fechaInicio, fechaFin, hoy);
      PostCleanGuardado(fechaInicio, fechaFin, ErroresDeClean(fechaInicio, fechaFin, hoy, vehiculo, reservas), hoy)
  }

  /** With both dates given, the guarded instance clean adds nothing: each
      date error the form reported has already removed the date it is
      about. The verdict is the form's own, `conflicto` standing for the
      overlap scan. */
  lemma GuardadoConFechas(inicio: int, fin: int, hoy: int, conflicto: bool)
    ensures var errores := ErroresDeFechas(inicio, fin, hoy) + (if conflicto then [ErrorSolapamiento] else []);
            var v := PostCleanGuardado(Some(inicio), Some(fin), errores, hoy);
            v == (if errores == [] then Valida else Invalida(errores)) &&
            (v.Valida? <==> hoy <= inicio <= fin && !conflicto) &&
            (v.Invalida? ==>
               CampoObligatorio !in v.errores &&
               (ErrorFechaInicio in v.errores || ErrorDelModelo(InicioPasado) in v.errores <==> inicio < hoy) &&
               (ErrorFechaFin in v.errores <==> fin < inicio))
  {
    var fechas := ErroresDeFechas(inicio, fin, hoy);
    var errores := fechas + (if conflicto then [ErrorSolapamiento] else []);
    assert ErrorFechaInicio in errores <==> inicio < hoy;
    assert ErrorFechaFin in errores <==> fin < inicio;
    assert Obligatorios(Some(inicio), Some(fin)) + errores == errores;
    if fechas != [] {
      assert fechas[0] in errores;
    }
  }

  /** With a date missing, the form's `clean` adds nothing; the "required"
      errors come first, then a start in the past from the instance clean. */
  lemma GuardadoSinFecha(fechaInicio: Option<int>, fechaFin: Option<int>, hoy: int)
    requires fechaInicio.None? || fechaFin.None?
    ensures var v := PostCleanGuardado(fechaInicio, fechaFin, [], hoy);
            var pasado := fechaInicio.Some? && fechaInicio.value < hoy;
            v == Invalida(Obligatorios(fechaInicio, fechaFin) + if pasado then [ErrorDelModelo(InicioPasado)] else []) &&
            CampoObligatorio in v.errores &&
            (ErrorFechaInicio in v.errores || ErrorDelModelo(InicioPasado) in v.errores <==> pasado) &&
            ErrorFechaFin !in v.errores
  {
    var obligatorios := Obligatorios(fechaInicio, fechaFin);
    assert CampoObligatorio in obligatorios;
    assert forall x :: x in obligatorios ==> x == CampoObligatorio;
    assert obligatorios + [] == obligatorios;
  }

  /** Wherever `is_valid` as written does not raise, the corrected one
      gives the same verdict with the same errors. */
  lemma CoincidenSinExcepcion(fechaInicio: Option<int>, fechaFin: Option<int>, hoy: int,
                              vehiculo: int, reservas: map<int, Reserva>)
    requires !CompararConNone(fechaInicio, fechaFin, hoy)
    ensures IsValidCorregido(fechaInicio, fechaFin, hoy, vehiculo, reservas) ==
            IsValid(fechaInicio, fechaFin, hoy, vehiculo, reservas)
  {
    if fechaInicio.Some? && fechaFin.Some? {
      var conflicto := HayConflicto(reservas, vehiculo, fechaInicio.value, fechaFin.value, None, BloqueoFormulario);
      GuardadoConFechas(fechaInicio.value, fechaFin.value, hoy, conflicto);
    }
  }

  /** A start date in the past makes `is_valid` raise when an end date is
      given, while the corrected form reports it as an error on the start. */
  lemma InicioPasadoLanza(inicio: int, fin: int, hoy: int, vehiculo: int, reservas: map<int, Reserva>)
    requires inicio < hoy
    ensures IsValid(Some(inicio), Some(fin), hoy, vehiculo, reservas) == LanzaTypeError
    ensures var v := IsValidCorregido(Some(inicio), Some(fin), hoy, vehiculo, reservas);
            v.Invalida? && ErrorFechaInicio in v.errores
  {
  }

  // ---------------------------------------------------------------------
  // CancelarReservaForm

  /** The errors of the `motivo_cancelacion` field: empty after stripping
      ("required"), or holding a NUL character. */
  datatype ErrorMotivo = MotivoObligatorio | CaracterNulo

  /** Cleaning `motivo_cancelacion` (a required CharField): the value is
      stripped of surrounding whitespace, must not then be empty, and must
      not contain a NUL character; the stripped text is what the view stores. */
  function CleanCancelarReservaForm(motivo: Option<string>): (r: Result<string, ErrorMotivo>)
    ensures r.Ok? <==> motivo.Some? && Strip(motivo.value) != [] && '\0' !in Strip(motivo.value)
    ensures r.Ok? ==> r.value != [] && !IsSpace(r.value[0]) && !IsSpace(r.value[|r.value| - 1])
    ensures r.Ok? ==> r.value == Strip(motivo.value)
    ensures r == Err(MotivoObligatorio) <==> motivo.None? || forall i :: 0 <= i < |motivo.value| ==> IsSpace(motivo.value[i])
  {
    var valor := if motivo.Some? then Strip(motivo.value) else [];
    if valor == [] then Err(MotivoObligatorio)
    else if '\0' in valor then Err(CaracterNulo)
    else Ok(valor)
  }
}
