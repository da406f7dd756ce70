# Vehicle rental reservations, modelled in Dafny

This project models the reservation rules of a small Django car-rental site and proves properties about them. The model covers:

- **The vehicle state machine** (`Vehiculo` in vehiculos/models.py). It has the three state predicates, the case-insensitive name lookup `cambiar_estado`, and the guarded transitions `reservar`, `liberar` and `enviar_a_mantenimiento`. It also has the badge-colour and icon display mappings.
- **The reservation record** (`Reserva` in reservas/models.py). This covers `clean` (dates, then the overlap scan against a set of blocking states), `save`, `calcular_total` and the 24-hour cutoff `puede_cancelar_usuario`.
- **The reservation forms** (reservas/forms.py). `ReservaForm.clean` accumulates errors and stops at the first overlap. `ReservaForm` is a ModelForm, so `is_valid()` then runs `Reserva.clean` on the unsaved instance; that step is modelled too. `CancelarReservaForm` requires a reason.
- **The views** of reservas/views.py. These are `crear_reserva`, `cancelar_reserva` with `_Realizar_Reembolso`, and `admin_cancelar_reserva`. They are methods of a class `Agencia` that holds the Estado table, the vehicles, the Reserva table and the card balances. A `transaction.atomic()` block that raises is modelled as a rollback: the store is left as it was found.
- **The field checks** of the card-payment form (pagos/forms.py) and of the registration forms (usuarios/forms.py).
- **The input handlers and the search-form check** of static/js/scripts.js. Each one is tied by lemmas to the server-side check of the same field.

Representation:

- Dates are day numbers and instants are seconds since the epoch. "Today" is the day of the instant.
- Money is in integer cents.
- A vehicle's state is the name of its Estado row, or None for a null state. The Estado table is the set of names it holds.
- Strings are sequences of characters. Python's `lower`, `capitalize`, `isdigit`, `strip`, `split` and `int()`, and JavaScript's `replace(/\D/g, '')`, are written out for ASCII in module `Texto`.
- `strip()` and `int()` skip different whitespace. `strip()` removes every `str.isspace()` character: space, \t \n \v \f \r and the separators \x1c-\x1f. `int()` skips only space and \t \n \v \f \r.
- A date field that is missing or does not hold a date is None.

The code is followed where it does these things:

- `reservar()` passes "disponible" to `cambiar_estado`, so a reserved vehicle keeps the state Disponible.
- `crear_reserva` looks the card up by number but never charges it.
- `form.is_valid()` in `crear_reserva` raises TypeError for most date errors, and the view does not catch it. `Agencia.CrearReserva` returns ErrorInterno for these inputs (see "## Findings").
- `admin_cancelar_reserva` never refunds.
- `Reserva.clean` treats Cancelada and Confirmada as blocking states. `ReservaForm.clean` treats Pendiente and Confirmada as blocking. The overlap check therefore takes the blocking set as a parameter, and both sets are used.
- There is no check on the driver's document, no card PIN, expiry or balance check, and no refund percentage.

Consequences of the code that the contracts state:

- **The delete-on-failure branch of `crear_reserva` cannot be taken** (reservas/views.py:87-91). The vehicle was fetched in the one state named "disponible", and `reservar()` repeats that same lookup. The method `Agencia.TransaccionCrear` marks the branch as unreachable.
- **Cancelling can fail validation, because `save()` runs `clean()` again.**
  - Both cancellations are refused when another Cancelada or Confirmada reservation of the same vehicle overlaps.
  - An admin cancellation of a reservation that has already started is rolled back, because the start date now lies in the past.
  - A user cancellation never fails that way. The 24-hour cutoff guarantees the start date is still ahead (`Reservas.PuedeCancelarAntesDelInicio`).
- **No cancellation can create a double booking.** Creating and cancelling keep "no two Confirmada reservations of one vehicle share a day" true.

## Model

| member | source | states |
|---|---|---|
| Vehiculos.Disponible | vehiculos/models.py:81-82 | True exactly when there is a state and its name, lower-cased, is "disponible" |
| Vehiculos.EstaReservado | vehiculos/models.py:84-85 | True exactly when there is a state and its name, lower-cased, is "reservado" |
| Vehiculos.EnMantenimiento | vehiculos/models.py:87-88 | True exactly when there is a state and its name, lower-cased, is "mantenimiento" |
| Vehiculos.EstadosExclusivos | vehiculos/models.py:81-88 | At most one of disponible / esta_reservado / en_mantenimiento holds; none holds for a null state |
| Vehiculos.EstadoColorClass | vehiculos/models.py:117-123 | bg-success, bg-warning or bg-danger exactly when the state is Disponible, Reservado or Mantenimiento respectively; bg-secondary exactly when it is none of them (null included) |
| Vehiculos.EstadoDisplayWithIcon | vehiculos/models.py:125-135 | Icon, space, capitalised name. Each icon appears exactly when its state holds, and ❓ exactly when none does. A null state gives "❓ Sin estado" |
| Vehiculos.ColorAndIconAgree | vehiculos/models.py:117-135 | The badge colour and the icon always denote the same state |
| Vehiculos.DisplayNameDenotesState | vehiculos/models.py:131-134 | The displayed (capitalised) name is case-insensitively the state's own name |
| Vehiculos.Coincidencias | vehiculos/models.py:93 | The rows `get(nombre__iexact=…)` can match: rows of the table only, each equal to the requested name ignoring case, and the row with exactly that name whenever it exists |
| Vehiculos.CambioExitoso | vehiculos/models.py:91-100 | A successful `cambiar_estado` leaves the vehicle on a row of the Estado table whose name matches the requested one case-insensitively |
| Vehiculos.LiberarDejaDisponible | vehiculos/models.py:107-110 | A successful `liberar` started from Reservado or Mantenimiento and ends in Disponible; an unsuccessful one changes nothing |
| Vehiculos.LiberarLanza | vehiculos/models.py:91-110 | `liberar()` raises exactly when it hands the vehicle on (Reservado or Mantenimiento) and more than one row matches "disponible" |
| Vehiculos.Vehiculo.CambiarEstado | vehiculos/models.py:91-100 | No matching Estado row: False and no change. One row: True and the state becomes that row. Several rows: the lookup raises and nothing changes |
| Vehiculos.Vehiculo.Reservar | vehiculos/models.py:102-105 | False with no change unless the vehicle is Disponible; as written the state never changes, since "disponible" is the name passed on |
| Vehiculos.Vehiculo.Liberar | vehiculos/models.py:107-110 | Only Reservado or Mantenimiento is handed on to `cambiar_estado("disponible")`; success leaves the vehicle Disponible; from any other state False and no change |
| Vehiculos.Vehiculo.EnviarAMantenimiento | vehiculos/models.py:112-115 | Success only from Disponible, ending in Mantenimiento; from any other state False and no change |
| Reservas.Hoy | reservas/models.py:33 | The day of an instant: the day whose first second is at or before the instant and whose successor's first second is after it |
| Reservas.Solapan | reservas/models.py:49 | The overlap test as written: each range starts no later than the other ends |
| Reservas.SolapanSiCompartenDia | reservas/models.py:49 | For well-formed ranges the inclusive interval test holds exactly when the two ranges share a day |
| Reservas.SolapanAlTocarse | reservas/models.py:49 | Ranges that touch on one day conflict, in either order |
| Reservas.HayConflicto | reservas/models.py:42-50 | Some reservation other than the excluded one is of the vehicle, is in a blocking state and overlaps the dates |
| Reservas.HayConflictoMonotono | reservas/models.py:43-46 | A conflict against a set of blocking states remains a conflict against any larger set |
| Reservas.BuscarConflicto | reservas/models.py:48-50 | The scan returns a reservation that really conflicts, and returns none exactly when no conflict exists |
| Reservas.Clean | reservas/models.py:31-50 | Checks run in this order and the first failure is reported: start before today, end before start, overlap with another Cancelada/Confirmada reservation of the vehicle (own id excluded). No error exactly when all three pass |
| Reservas.CalcularTotal | reservas/models.py:56-59 | For valid dates the total is at least one day's rate |
| Reservas.CalcularTotalPorTramos | reservas/models.py:56-59 | One day costs one day's rate, and splitting a stay at any day splits its total, so the total is the rate times the number of inclusive days |
| Reservas.PuedeCancelarUsuario | reservas/models.py:61-66 | At least 24 hours, in seconds, remain between the instant and midnight at the beginning of the start date |
| Reservas.PuedeCancelarPorDias | reservas/models.py:61-66 | The 24-hour cutoff in days: allowed up to two days before the start, and on the day before only at midnight |
| Reservas.PuedeCancelarAntesDelInicio | reservas/models.py:61-66 | A reservation that may still be cancelled has not started yet |
| Reservas.PuedeCancelarAntes | reservas/models.py:61-66 | Whoever may cancel at an instant may cancel at any earlier instant |
| ReservaForms.ErroresDeFechas | reservas/forms.py:24-31 | A start error exactly when start is before today and an end error exactly when end is before start; both can be present at once |
| ReservaForms.CleanReservaForm | reservas/forms.py:19-45 | With a date missing no error. Otherwise the date errors in order, then one overlap error exactly when some Pendiente/Confirmada reservation of the vehicle overlaps |
| ReservaForms.ErroresSeAcumulan | reservas/forms.py:26-43 | Each form error is present exactly when its condition holds; at most one overlap error |
| ReservaForms.FormularioSinErrores | reservas/forms.py:19-45 | The form passes exactly when today ≤ start ≤ end and no Pendiente/Confirmada reservation of the vehicle overlaps |
| ReservaForms.IsValid | reservas/models.py:31-38 | `is_valid()` as written, with `Reserva.clean` run on the instance. It raises exactly in these cases: the start is missing; both dates are given and the start is before today or the end is before the start; or the end is missing and the start is not in the past. It is valid exactly when both dates are given, today ≤ start ≤ end and the form finds no overlap. A missing end with a past start gives the "required" error and the model's start error |
| ReservaForms.InicioPasadoLanza | reservas/models.py:33 | A start before today with an end given makes `is_valid()` raise. The corrected form reports it as a start error instead |
| ReservaForms.IsValidCorregido | reservas/models.py:31-38 | `is_valid()` with `Reserva.clean` skipping comparisons with an unset date. It never raises and is valid exactly when `IsValid` is valid. Otherwise its errors hold: the "required" error exactly when a date is missing; a start error exactly when the start is before today; and an end error exactly when both dates are given and the end is before the start |
| ReservaForms.CoincidenSinExcepcion | reservas/forms.py:5-45 | Wherever `is_valid()` as written does not raise, the corrected one gives the same verdict and the same errors |
| ReservaForms.CleanCancelarReservaForm | reservas/forms.py:47-51 | The reason is accepted exactly when, after stripping, it is non-empty and holds no NUL. The accepted value is the stripped text. A missing or all-whitespace reason is the "required" error |
| ReservaViews.InsertarSinDobleReserva | reservas/models.py:42-50 | Adding a Confirmada reservation that passed the overlap check keeps every vehicle free of double bookings |
| ReservaViews.CancelarSinDobleReserva | reservas/views.py:125-127 | Moving a reservation out of Confirmada keeps every vehicle free of double bookings |
| ReservaViews.Agencia.CrearReserva | reservas/views.py:44-102 | A reservation is created exactly when all of these hold: exactly one Estado is named "disponible", the vehicle is in it, both dates are present and valid, neither clean finds an overlap, and the card exists. It is added as Confirmada under a fresh id. Otherwise the reservations are unchanged. With no Estado named "disponible" the result is the redirect; with exactly one and the vehicle missing or not in it, the 404. The view fails with an uncaught exception in two cases: several Estado rows match "disponible"; or the vehicle is found and the dates are ones on which `is_valid()` raises. The form is re-displayed exactly when the vehicle is found and `IsValid` reports errors. Cards and vehicle states never change, and no double booking appears |
| ReservaViews.Agencia.AtenderFormulario | reservas/views.py:54-95 | The form, then the unit of work. An uncaught exception occurs exactly on the dates where `is_valid()` raises. The form is re-displayed, with `IsValid`'s errors, exactly when `IsValid` reports errors. A reservation is created exactly when the dates are valid, neither blocking set has an overlap and the card exists. Anything short of creation changes nothing |
| ReservaViews.Agencia.TransaccionCrear | reservas/views.py:57-95 | Unknown card or failed `clean` rolls back; otherwise the new Confirmada row is stored under a fresh id; cards and vehicle states unchanged |
| ReservaViews.Agencia.GuardarCancelacion | reservas/models.py:52-54 | `save` writes the changed row only when `clean` accepts it; otherwise nothing is stored |
| ReservaViews.Agencia.LiberarVehiculo | reservas/views.py:186-190 | `liberar()` on the reservation's vehicle; no other vehicle changes; it raises exactly when `LiberarLanza` holds, and then nothing changes |
| ReservaViews.Agencia.CancelarReserva | reservas/views.py:104-152 | Someone else's or a missing reservation: not found. Under 24 hours: refused. Both change nothing. On success the row becomes Cancelada with reason "Cancelada desde Lista", the card gains exactly the refund, and the vehicle is released if it can be; the result says whether it was. A start in the past is never the reason for failure. Any failure leaves everything as it was. The cancellation commits exactly when the reservation is the user's, the cutoff allows it, its dates are in order, no other Cancelada/Confirmada reservation of the vehicle overlaps, its card exists, and `liberar` does not raise |
| ReservaViews.Agencia.TransaccionUsuario | reservas/views.py:113-152 | The atomic block: the save, the refund to the card, then `liberar`. A missing card or a raising `liberar` restores reservations and cards. It commits exactly when `clean` accepts the cancelled row, the card exists and `liberar` does not raise |
| ReservaViews.Agencia.AdminCancelarReserva | reservas/views.py:157-196 | Non-staff is refused, then a missing row is 404, then an invalid reason is a form error. On success the row becomes "Cancelada por Admin" with the stripped reason, only if it has not started and does not overlap. Cards are never touched. Any failure changes nothing. It commits exactly when the user is staff, the row exists, the reason is valid, today ≤ start ≤ end, no other Cancelada/Confirmada reservation of the vehicle overlaps, and `liberar` does not raise |
| ReservaViews.Agencia.TransaccionAdmin | reservas/views.py:169-196 | The atomic block: the save, then `liberar`; a raising `liberar` restores the reservations; the cards never change. It commits exactly when `clean` accepts the cancelled row and `liberar` does not raise |
| PagoForms.CleanNumeroTarjeta | pagos/forms.py:37-41 | Accepted exactly when the number is 16 digits; returned unchanged |
| PagoForms.CleanCodigoSeguridad | pagos/forms.py:64-68 | Accepted exactly when the code is 3 or 4 digits; returned unchanged |
| PagoForms.LeerVencimiento | pagos/forms.py:45-48 | Text without exactly one '/' does not parse |
| PagoForms.LeerVencimientoPartes | pagos/forms.py:46-48 | With exactly one '/', the text parses exactly when `int()` accepts the part before it and "20" followed by the part after it, and then gives those two numbers |
| PagoForms.MesNoNumerico | pagos/forms.py:46-60 | A month part holding a character `int()` never accepts, such as a letter, gives the format error |
| PagoForms.SeparadorEnMes | pagos/forms.py:46-60 | Month digits followed by one of \x1c-\x1f, as in "1\x1c/30", give the format error, although that character is whitespace to `str.isspace()` |
| PagoForms.Expirada | pagos/forms.py:53-54 | Expired when the year is earlier, or the year is the same and the month earlier |
| PagoForms.Veredicto | pagos/forms.py:53-57 | For a parsed date: expired first, then a month outside 1..12, otherwise the text back |
| PagoForms.CleanFechaVencimiento | pagos/forms.py:43-62 | A format error exactly when the text does not parse. Otherwise "expired" exactly when the year is earlier, or the year is the same and the month earlier. Otherwise "invalid month" exactly when the month is outside 1..12. Otherwise the text is returned unchanged |
| PagoForms.ExpiradaPorMeses | pagos/forms.py:53-54 | For months in range the expiry test is the order of months in time |
| PagoForms.AnioConPrefijo | pagos/forms.py:48 | "20" followed by digits reads as 20·10^n plus the value of the digits |
| PagoForms.AnioDosDigitos | pagos/forms.py:48 | Two year digits AA give the year 2000 + AA |
| PagoForms.LeerDigitos | pagos/forms.py:46-48 | Digits, a slash and digits parse as the month and the year "20" followed by the year digits |
| PagoForms.VencimientoDeDigitos | pagos/forms.py:43-62 | For "MM/AA" made of digits, the verdict is decided by those two numbers alone |
| PagoForms.MesActualAceptado | pagos/forms.py:53-54 | A card that expires in the current month is accepted |
| PagoForms.ExpiradaAntesQueMes | pagos/forms.py:53-57 | A month out of range in a past year is reported as expired, not as an invalid month |
| PagoForms.SinAnio | pagos/forms.py:46-54 | A text with nothing after the slash is read as the year 20 and reported as expired |
| UsuarioForms.CleanEmail | usuarios/forms.py:13-17 | Refused exactly when the address is already registered; returned unchanged |
| UsuarioForms.EmailUnaVez | usuarios/forms.py:13-17 | Once an address is registered it is refused the second time; other addresses are unaffected |
| UsuarioForms.CleanPassword1 | usuarios/forms.py:19-23 | Accepted exactly when at most 8 characters; returned unchanged |
| UsuarioForms.PasswordPrefijo | usuarios/forms.py:19-23 | Shortening an accepted password keeps it accepted |
| UsuarioForms.Edad | usuarios/forms.py:36 | The age is the difference of the years, or one less; exactly the difference once the birthday of the current year has come |
| UsuarioForms.CleanFechaNacimiento | usuarios/forms.py:31-39 | A missing date passes through; otherwise accepted exactly when the computed age is at least 18, and returned unchanged |
| UsuarioForms.MayorDeEdadSiCumplio | usuarios/forms.py:36-37 | The age is at least 18 exactly when the 18th birthday is today or earlier |
| UsuarioForms.CumpleHoy | usuarios/forms.py:36-39 | Someone whose 18th birthday is today is accepted; on an earlier day of that year, refused |
| UsuarioForms.EdadCrece | usuarios/forms.py:36-37 | Age never decreases as time passes, so an accepted birth date stays accepted |
| Scripts.DigitosHasta | static/js/scripts.js:10-13 | Only digits, a prefix of the digits typed, of length min(digits typed, limit) |
| Scripts.DigitosHastaIdempotente | static/js/scripts.js:9-15 | Filtering and truncating twice gives what once gave |
| Scripts.FormatearNumeroTarjeta | static/js/scripts.js:9-15 | At most 16 digits, a prefix of the digits typed; exactly the digits typed when fewer than 16 |
| Scripts.NumeroFormateadoAceptado | static/js/scripts.js:9-15 | The server accepts the formatted number exactly when at least 16 digits were typed |
| Scripts.FormatearCodigoSeguridad | static/js/scripts.js:33-39 | At most 4 digits, a prefix of the digits typed; exactly the digits typed when fewer than 4 |
| Scripts.CodigoFormateadoAceptado | static/js/scripts.js:33-39 | The server accepts the formatted code exactly when at least 3 digits were typed |
| Scripts.FormatearVencimiento | static/js/scripts.js:21-27 | At most 5 characters. It keeps the first four digits typed, in order. There is a slash exactly when more than two digits were typed, and then it sits after the first two |
| Scripts.FormatearVencimientoIdempotente | static/js/scripts.js:22-26 | The handler leaves its own output unchanged |
| Scripts.VencimientoFormateado | static/js/scripts.js:21-27 | With four digits typed, the server reads month MM of year 2000 + AA and decides on those |
| Scripts.VencimientoSinBarra | static/js/scripts.js:22-26 | With at most two digits typed, the server reports a format error |
| Scripts.VencimientoTresDigitos | static/js/scripts.js:22-26 | With three digits typed, the server reads the year 200 + A, so the date is reported as expired from the year 210 on |
| Scripts.ValidarBusqueda | static/js/scripts.js:45-64 | Blocks on the start exactly when it is before today. Otherwise blocks on the end exactly when it is before the start. An unreadable start never blocks |
| Scripts.BusquedaComoFormulario | static/js/scripts.js:51-61 | With both dates given, the browser lets the form through exactly when the reservation form reports no date error. It blocks on the start exactly when the server reports a start error |
| Texto.Strip | reservas/forms.py:48-51 | The stripped text neither starts nor ends with whitespace, and is empty exactly when the input is all whitespace |
| Texto.RecortarTramo | reservas/forms.py:48-51 | For `strip()` and for `int()`'s whitespace alike, the text left is a contiguous slice of the input, and everything before and after that slice is whitespace |
| Texto.RecortarEspacioInicial | reservas/forms.py:48-51 | One more whitespace character in front does not change the text left |
| Texto.RecortarEspacioFinal | reservas/forms.py:48-51 | One more whitespace character at the end does not change the text left |
| Texto.RecortarSinBordes | reservas/forms.py:48-51 | A non-empty text that neither starts nor ends with whitespace is left as it is |
| Texto.RemoveNonDigits | static/js/scripts.js:10 | Only digits, never longer than the input, empty exactly when the input holds no digit, and a string of digits is left as it is |
| Texto.RemoveNonDigitsCaracter | static/js/scripts.js:10 | One character is kept when it is a digit and dropped otherwise; with `RemoveNonDigitsAppend` this fixes the result: the input's digits, in order |
| Texto.RemoveNonDigitsAppend | static/js/scripts.js:22-24 | Filtering distributes over concatenation |
| Texto.Split | pagos/forms.py:46 | One part more than separators, and no part contains the separator |
| Texto.JoinSplit | pagos/forms.py:46 | Joining the parts with the separator gives the text back |
| Texto.SplitOnce | pagos/forms.py:46 | "a/b" with no slash in a or b splits into exactly [a, b] |
| Texto.ParseInt | pagos/forms.py:47-48 | A string of digits reads as its value. A string made only of `str.isspace()` characters, \x1c-\x1f included, raises |
| Texto.ParseDigitGroups | pagos/forms.py:47-48 | A run of digits reads as its value, and what is read is never negative |
| Texto.ParseIntRechaza | pagos/forms.py:47-48 | A string `int()` accepts holds at least one digit, and otherwise only digits, space and \t \n \v \f \r, signs and underscores. Anything else raises, including \x1c-\x1f |
| Texto.ParseIntSigno | pagos/forms.py:47-48 | A leading '-' negates the value of the digits, a leading '+' keeps it |
| Texto.ParseIntEspacios | pagos/forms.py:47-48 | A space or one of \t \n \v \f \r added at either end does not change what `int()` reads |
| Texto.ParseIntSeparador | pagos/forms.py:47 | One of \x1c-\x1f in front of digits is stripped by `strip()`, but makes `int()` raise |
| Texto.DigitsValueAppend | pagos/forms.py:48 | Appending digits shifts the value by a power of ten |
| Texto.Lower | vehiculos/models.py:82 | Same length, no upper-case letter left, and every character that is not an upper-case letter unchanged |
| Texto.Capitalize | vehiculos/models.py:132 | Same length; the first character is not a lower-case letter and the rest has no upper-case letter |
| Texto.LowerCapitalize | vehiculos/models.py:132-133 | Capitalising does not change what a case-insensitive comparison sees |

## Findings

| source | as written | input that shows it | evidently intended | confidence | as-written member | corrected member |
|---|---|---|---|---|---|---|
| reservas/models.py:31-38 | `ReservaForm` is a ModelForm. `is_valid()` first drops from the cleaned data each date the form flagged or could not read. It then runs `Reserva.clean` on an instance without those dates, and `None < date` raises TypeError. `crear_reserva` calls `is_valid()` outside its `try`, so the request fails | a start date before today with any end date; or an end before the start; or no start date | the form is shown again with its date errors | not executed | ReservaForms.IsValid (ReservaForms.InicioPasadoLanza) | ReservaForms.IsValidCorregido (ReservaForms.CoincidenSinExcepcion) |

The view `Agencia.CrearReserva` keeps the behaviour as written: on these inputs it ends in ErrorInterno.

## Left out

- ReservaViews.Agencia.CrearReserva: takes the card number and the driver's document as inputs. As written, `ReservaForm` declares only the two date fields, so `form.cleaned_data['dni_conductor']` raises KeyError. The `Reserva` model in reservas/models.py also declares no `tarjeta` or `dni_conductor` field. Every POST that passes the form therefore ends in the `except Exception` branch with nothing stored. The model gives the operation the behaviour its code evidently intends.
- ReservaViews.Agencia.CancelarReserva: `calcular_Reembolso` and `Reserva.tarjeta` are not defined in reservas/models.py. The refund is a function parameter and the card is the reservation's card number. The Decimal arithmetic of `saldo += monto` is integer cents.
- Reservas.CalcularTotal: `tarifa_diaria` is not a field of the vehicle (its price field is `precio_por_dia`), so the rate is a parameter. Decimal arithmetic is integer cents.
- Reservation-state lookups (`EstadoReserva.objects.get(nombre__iexact=...)` with the `get_or_create` fallback) are modelled as the fixed names "Confirmada", "Cancelada" and "Cancelada por Admin". A MultipleObjectsReturned from those lookups is not modelled.
- The `Estado.objects.get` in `crear_reserva` raising MultipleObjectsReturned is not caught by that view. Neither is the TypeError raised by `form.is_valid()`. Both are modelled as the result ErrorInterno.
- `hasattr(self, 'vehiculo') and self.vehiculo` in `Reserva.clean` is true for every stored reservation (`Reservas.Clean`, which `save()` runs). It is false on the unsaved instance that `is_valid()` cleans (`ReservaForms.CleanInstancia`), which is given no vehicle, so that clean skips the overlap scan.
- Reservas.BuscarConflicto: returns some conflicting reservation, not necessarily the newest one that the source's `-fecha_creacion` ordering would name first. Only the ValidationError text depends on which row it is, and messages are not modelled.
- Time: `timezone.now()`, `date.today()`, `datetime.now()` and `new Date()` are parameters. Time zones, the UTC-versus-local parsing of date inputs, and sub-second instants are not modelled.
- Reservas.PuedeCancelarUsuario: the float division by 3600 is replaced by an exact comparison in whole seconds.
- PagoForms.CleanNumeroTarjeta: digits are ASCII 0-9; Python's `isdigit` also accepts other Unicode digits.
- PagoForms.CleanCodigoSeguridad: digits are ASCII 0-9; Python's `isdigit` also accepts other Unicode digits.
- Texto.ParseInt: ASCII digits only, and of the ASCII characters only space and \t \n \v \f \r are skipped, as `int()` does. Python's `int()` also accepts other Unicode digits and Unicode spaces; these are not modelled.
- Texto.Lower: ASCII letters only. Python's `str.lower()` also maps other Unicode letters. `DisplayNameDenotesState`, `LowerCapitalize` and `EstadoDisplayWithIcon` therefore hold for ASCII names only.
- Texto.Capitalize: ASCII letters only. Python's `str.capitalize()` differs on other letters (it maps "ß" to "Ss" and upper-cases "é"), so the displayed-name lemmas hold for ASCII names only.
- Vehiculos.Coincidencias: the Estado table is a set of names, so two rows with exactly the same name are one entry. The MultipleObjectsReturned case of `Vehiculos.Vehiculo.CambiarEstado` is therefore reached only by distinct names that differ in case.
- Texto.Strip: ASCII whitespace only; Python's `str.strip()` also removes other Unicode spaces.
- Field-level form cleaning that runs before the `clean_*` methods (`max_length`, the stripping of CharFields, the date format) is not modelled; the checks take the already cleaned value. There are two exceptions. A reservation date is modelled only as present or not: missing and unparsable are both None, and both give the field's error. The cancellation reason's required-and-stripped check is modelled in full.
- Messages, redirects, template rendering, the GET branches of the views, and the list and detail views are not modelled.
- The `fecha_cambio_estado` timestamp, the `save=False` flag of `cambiar_estado` and the persistence call itself are not modelled. The state change is the field assignment.
- Database concurrency and isolation levels are not modelled. Each operation runs alone on the store.
- In static/js/scripts.js: `applyGreenBlackColorScheme`, tooltips, alert closing and the final write to the input element are not modelled.
