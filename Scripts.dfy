/** The input handlers of static/js/scripts.js as functions from the text
    typed so far to the text written back, and the search form's date check
    as a function of the two dates and today. Each handler's result is tied
    to the server-side check of the same field. */
module Scripts {
  import opened Wrappers
  import opened Texto
  import opened PagoForms
  import opened ReservaForms

  function Min(a: int, b: int): int {
    if a < b then a else b
  }

  /** `value.replace(/\D/g, '')`, then `value.slice(0, maximo)` when longer:
      the digits typed, in order, at most `maximo` of them. */
  function DigitosHasta(valor: string, maximo: nat): (r: string)
    ensures AllDigits(r)
    ensures r <= RemoveNonDigits(valor)
    ensures |r| == Min(|RemoveNonDigits(valor)|, maximo)
  {
    var digitos := RemoveNonDigits(valor);
    if |digitos| > maximo then digitos[..maximo] else digitos
  }

  /** Formatting twice gives what formatting once gave. */
  lemma DigitosHastaIdempotente(valor: string, maximo: nat)
    ensures DigitosHasta(DigitosHasta(valor, maximo), maximo) == DigitosHasta(valor, maximo)
  {
  }

  /** The card-number handler: at most sixteen digits. */
  function FormatearNumeroTarjeta(valor: string): (r: string)
    ensures AllDigits(r) && |r| <= 16
    ensures r <= RemoveNonDigits(valor)
    ensures |RemoveNonDigits(valor)| >= 16 ==> |r| == 16
    ensures |RemoveNonDigits(valor)| < 16 ==> r == RemoveNonDigits(valor)
  {
    DigitosHasta(valor, 16)
  }

  /** The security-code handler: at most four digits. */
  function FormatearCodigoSeguridad(valor: string): (r: string)
    ensures AllDigits(r) && |r| <= 4
    ensures r <= RemoveNonDigits(valor)
    ensures |RemoveNonDigits(valor)| >= 4 ==> |r| == 4
    ensures |RemoveNonDigits(valor)| < 4 ==> r == RemoveNonDigits(valor)
  {
    DigitosHasta(valor, 4)
  }

  /** What the server makes of a formatted card number: it is accepted
      exactly when at least sixteen digits were typed. */
  lemma NumeroFormateadoAceptado(valor: string)
    ensures CleanNumeroTarjeta(FormatearNumeroTarjeta(valor)).Ok? <==> |RemoveNonDigits(valor)| >= 16
  {
  }

  /** What the server makes of a formatted security code: it is accepted
      exactly when at least three digits were typed. */
  lemma CodigoFormateadoAceptado(valor: string)
    ensures CleanCodigoSeguridad(FormatearCodigoSeguridad(valor)).Ok? <==> |RemoveNonDigits(valor)| >= 3
  {
  }

  // ---------------------------------------------------------------------
  // Expiry date

  /** The expiry handler: the digits typed; past two of them, the first two,
      a slash and the next (at most two). */
  function FormatearVencimiento(valor: string): (r: string)
    ensures |r| <= 5
    ensures |RemoveNonDigits(valor)| <= 2 ==> r == RemoveNonDigits(valor)
    ensures |RemoveNonDigits(valor)| > 2 ==>
              var d := RemoveNonDigits(valor);
              r == d[..2] + "/" + d[2..Min(|d|, 4)]
    ensures RemoveNonDigits(r) == RemoveNonDigits(valor)[..Min(|RemoveNonDigits(valor)|, 4)]
    ensures '/' in r <==> |RemoveNonDigits(valor)| > 2
  {
    var d := RemoveNonDigits(valor);
    if |d| > 2 then
      var r := d[..2] + "/" + d[2..Min(|d|, 4)];
      RemoveNonDigitsAppend(d[..2] + "/", d[2..Min(|d|, 4)]);
      RemoveNonDigitsAppend(d[..2], "/");
      assert RemoveNonDigits("/") == [] by {
        assert "/"[1..] == [];
      }
      assert d[..2] + d[2..Min(|d|, 4)] == d[..Min(|d|, 4)];
      assert r[2] == '/';
      assert AllDigits(d[..2]) && AllDigits(d[2..Min(|d|, 4)]);
      r
    else
      d
  }

  /** Formatting the expiry twice gives what formatting once gave: the
      handler leaves its own output alone as the user keeps typing. */
  lemma {:induction false} FormatearVencimientoIdempotente(valor: string)
    ensures FormatearVencimiento(FormatearVencimiento(valor)) == FormatearVencimiento(valor)
  {
    var d := RemoveNonDigits(valor);
    var r := FormatearVencimiento(valor);
    var e := RemoveNonDigits(r);
    assert e == d[..Min(|d|, 4)];
    if |d| > 2 {
      assert e[..2] == d[..2];
      assert e[2..Min(|e|, 4)] == d[2..Min(|d|, 4)];
    }
  }

  /** With at least four digits typed the formatted text is "MM/AA", and the
      server reads it as month MM of the year 2000 + AA. */
  lemma {:induction false} VencimientoFormateado(valor: string, anioActual: int, mesActual: int)
    requires |RemoveNonDigits(valor)| >= 4
    ensures var d := RemoveNonDigits(valor);
            var mes, anio := DigitsValue(d[..2]), 2000 + DigitsValue(d[2..4]);
            CleanFechaVencimiento(FormatearVencimiento(valor), anioActual, mesActual) ==
              if Expirada(mes, anio, mesActual, anioActual) then Err(TarjetaExpirada)
              else if !(1 <= mes <= 12) then Err(MesInvalido)
              else Ok(FormatearVencimiento(valor))
  {
    var d := RemoveNonDigits(valor);
    assert AllDigits(d[..2]) && AllDigits(d[2..4]);
    assert FormatearVencimiento(valor) == d[..2] + "/" + d[2..4];
    VencimientoDeDigitos(d[..2], d[2..4], anioActual, mesActual);
    AnioDosDigitos(d[2..4]);
  }

  /** With one or two digits typed there is no slash yet, and the server
      reports a format error. */
  lemma {:induction false} VencimientoSinBarra(valor: string, anioActual: int, mesActual: int)
    requires |RemoveNonDigits(valor)| <= 2
    ensures CleanFechaVencimiento(FormatearVencimiento(valor), anioActual, mesActual) == Err(FormatoFechaInvalido)
  {
    var r := FormatearVencimiento(valor);
    SinBarra(r);
    SplitNone(r, '/');
  }

  /** With three digits typed the text is "MM/A", which the server reads as
      the year 200 + A: from the year 210 on it is reported as expired. */
  lemma {:induction false} VencimientoTresDigitos(valor: string, anioActual: int, mesActual: int)
    requires |RemoveNonDigits(valor)| == 3 && anioActual >= 210
    ensures CleanFechaVencimiento(FormatearVencimiento(valor), anioActual, mesActual) == Err(TarjetaExpirada)
  {
    var d := RemoveNonDigits(valor);
    assert AllDigits(d[..2]) && AllDigits(d[2..3]);
    assert FormatearVencimiento(valor) == d[..2] + "/" + d[2..3];
    VencimientoDeDigitos(d[..2], d[2..3], anioActual, mesActual);
    AnioConPrefijo(d[2..3]);
  }

  // ---------------------------------------------------------------------
  // Search form

  /** What the submit handler does: alert on the start date, alert on the
      end date, or let the form go. */
  datatype Busqueda = BloqueaInicio | BloqueaFin | Permite

  /** The submit handler of the search form. A date input that does not
      hold a date gives an Invalid Date, and every comparison with one is
      false: None here. The start check comes first. */
  function ValidarBusqueda(inicio: Option<int>, fin: Option<int>, hoy: int): (r: Busqueda)
    ensures r == BloqueaInicio <==> inicio.Some? && inicio.value < hoy
    ensures r == BloqueaFin <==>
              inicio.Some? && inicio.value >= hoy && fin.Some? && fin.value < inicio.value
    ensures inicio.None? ==> r == Permite
  {
    if inicio.Some? && inicio.value < hoy then BloqueaInicio
    else if inicio.Some? && fin.Some? && fin.value < inicio.value then BloqueaFin
    else Permite
  }

  /** With both dates present the browser lets the form go exactly when the
      server's reservation form would report no date error, and it alerts on
      a date the server would also reject; when both dates are wrong it
      names only the start date, the server both. */
  lemma {:induction false} BusquedaComoFormulario(inicio: int, fin: int, hoy: int)
    ensures ValidarBusqueda(Some(inicio), Some(fin), hoy) == Permite <==> ErroresDeFechas(inicio, fin, hoy) == []
    ensures ValidarBusqueda(Some(inicio), Some(fin), hoy) == BloqueaInicio <==>
            ErrorFechaInicio in ErroresDeFechas(inicio, fin, hoy)
    ensures ValidarBusqueda(Some(inicio), Some(fin), hoy) == BloqueaFin <==>
            ErroresDeFechas(inicio, fin, hoy) == [ErrorFechaFin]
  {
    var errores := ErroresDeFechas(inicio, fin, hoy);
    if inicio >= hoy && fin >= inicio {
      assert errores == [];
    } else if inicio >= hoy {
      assert errores == [ErrorFechaFin];
    } else {
      assert errores != [] && errores != [ErrorFechaFin];
    }
  }
}
