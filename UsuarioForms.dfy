/** The field checks of usuarios/forms.py: `UserForm.clean_email`,
    `UserForm.clean_password1` and `PerfilForm.clean_fecha_nacimiento`.
    The registered e-mail addresses are a set, and today's date a parameter. */
module UsuarioForms {
  import opened Wrappers

  /** A calendar date as year, month and day. */
  datatype Fecha = Fecha(anio: int, mes: int, dia: int)

  datatype ErrorUsuario =
    | EmailRegistrado      // "Este correo electrónico ya está registrado."
    | PasswordLarga        // more than 8 characters
    | MenorDeEdad          // "Debes ser mayor de 18 años para registrarte."

  /** `clean_email`: an address some user already has is refused. */
  function CleanEmail(email: string, registrados: set<string>): (r: Result<string, ErrorUsuario>)
    ensures r.Ok? <==> email !in registrados
    ensures r.Ok? ==> r.value == email
    ensures r.Err? ==> r.error == EmailRegistrado
  {
    if email in registrados then Err(EmailRegistrado) else Ok(email)
  }

  /** Registering an address makes a second registration with it fail,
      and leaves every other address as it was. */
  lemma EmailUnaVez(email: string, otro: string, registrados: set<string>)
    requires CleanEmail(email, registrados).Ok?
    ensures CleanEmail(email, registrados + {email}) == Err(EmailRegistrado)
    ensures otro != email ==> CleanEmail(otro, registrados + {email}) == CleanEmail(otro, registrados)
  {
  }

  const LongitudMaximaPassword: int := 8

  /** `clean_password1`: at most eight characters. */
  function CleanPassword1(password: string): (r: Result<string, ErrorUsuario>)
    ensures r.Ok? <==> |password| <= LongitudMaximaPassword
    ensures r.Ok? ==> r.value == password
    ensures r.Err? ==> r.error == PasswordLarga
  {
    if |password| > LongitudMaximaPassword then Err(PasswordLarga) else Ok(password)
  }

  /** A password's acceptance depends only on its length, and shortening an
      accepted password keeps it accepted. */
  lemma PasswordPrefijo(password: string, n: nat)
    requires CleanPassword1(password).Ok? && n <= |password|
    ensures CleanPassword1(password[..n]).Ok?
  {
  }

  // ---------------------------------------------------------------------
  // Age

  /** (month, day) tuple comparison as Python's `<` on tuples does it. */
  predicate AntesEnElAnio(mes1: int, dia1: int, mes2: int, dia2: int) {
    mes1 < mes2 || (mes1 == mes2 && dia1 < dia2)
  }

  /** The age computed in `clean_fecha_nacimiento`: the difference of the
      years, less one while this year's birthday has not come. */
  function Edad(nacimiento: Fecha, hoy: Fecha): (r: int)
    ensures hoy.anio - nacimiento.anio - 1 <= r <= hoy.anio - nacimiento.anio
    ensures r == hoy.anio - nacimiento.anio <==> !AntesEnElAnio(hoy.mes, hoy.dia, nacimiento.mes, nacimiento.dia)
  {
    hoy.anio - nacimiento.anio -
    (if AntesEnElAnio(hoy.mes, hoy.dia, nacimiento.mes, nacimiento.dia) then 1 else 0)
  }

  /** Dates in calendar order: year, then month, then day. */
  predicate NoDespues(a: Fecha, b: Fecha) {
    a.anio < b.anio || (a.anio == b.anio && !AntesEnElAnio(b.mes, b.dia, a.mes, a.dia))
  }

  /** `clean_fecha_nacimiento`: no date is passed through; a date on which
      the age is below 18 is refused; an accepted date is returned as is. */
  function CleanFechaNacimiento(fechaNacimiento: Option<Fecha>, hoy: Fecha): (r: Result<Option<Fecha>, ErrorUsuario>)
    ensures fechaNacimiento.None? ==> r == Ok(None)
    ensures r.Ok? ==> r.value == fechaNacimiento
    ensures r.Err? ==> r.error == MenorDeEdad
    ensures fechaNacimiento.Some? ==> (r.Ok? <==> Edad(fechaNacimiento.value, hoy) >= 18)
  {
    match fechaNacimiento
    case None => Ok(None)
    case Some(nacimiento) =>
      if Edad(nacimiento, hoy) < 18 then Err(MenorDeEdad) else Ok(fechaNacimiento)
  }

  /** The age test in calendar terms: at least 18 exactly when the 18th
      birthday (same month and day, 18 years on) is today or earlier. For a
      29 February birth that is 1 March in a common year. */
  lemma {:induction false} MayorDeEdadSiCumplio(nacimiento: Fecha, hoy: Fecha)
    ensures Edad(nacimiento, hoy) >= 18 <==>
            NoDespues(Fecha(nacimiento.anio + 18, nacimiento.mes, nacimiento.dia), hoy)
  {
    var cumple := Fecha(nacimiento.anio + 18, nacimiento.mes, nacimiento.dia);
    if AntesEnElAnio(hoy.mes, hoy.dia, nacimiento.mes, nacimiento.dia) {
      assert Edad(nacimiento, hoy) == hoy.anio - nacimiento.anio - 1;
    } else {
      assert Edad(nacimiento, hoy) == hoy.anio - nacimiento.anio;
    }
  }

  /** Someone whose 18th birthday is today is accepted; the day before, not. */
  lemma CumpleHoy(nacimiento: Fecha, hoy: Fecha, ayer: Fecha)
    requires hoy == Fecha(nacimiento.anio + 18, nacimiento.mes, nacimiento.dia)
    requires ayer.anio == hoy.anio && AntesEnElAnio(ayer.mes, ayer.dia, hoy.mes, hoy.dia)
    ensures CleanFechaNacimiento(Some(nacimiento), hoy) == Ok(Some(nacimiento))
    ensures CleanFechaNacimiento(Some(nacimiento), ayer) == Err(MenorDeEdad)
  {
    MayorDeEdadSiCumplio(nacimiento, hoy);
    MayorDeEdadSiCumplio(nacimiento, ayer);
  }

  /** Age never goes down as time passes, so an accepted birth date stays
      accepted on every later day. */
  lemma {:induction false} EdadCrece(nacimiento: Fecha, hoy: Fecha, despues: Fecha)
    requires NoDespues(hoy, despues)
    ensures Edad(nacimiento, hoy) <= Edad(nacimiento, despues)
    ensures CleanFechaNacimiento(Some(nacimiento), hoy).Ok? ==> CleanFechaNacimiento(Some(nacimiento), despues).Ok?
  {
    if hoy.anio == despues.anio {
      if AntesEnElAnio(despues.mes, despues.dia, nacimiento.mes, nacimiento.dia) {
        assert AntesEnElAnio(hoy.mes, hoy.dia, nacimiento.mes, nacimiento.dia);
      }
    }
  }
}
