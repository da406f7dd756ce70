/** The field checks of `PagoTarjetaForm` in pagos/forms.py. Each takes the
    field's text and gives it back unchanged, or the error it raises. */
module PagoForms {
  import opened Wrappers
  import opened Texto

  datatype ErrorPago =
    | NumeroInvalido          // "El numero de tarjeta debe contener 16 digitos."
    | FormatoFechaInvalido    // the ValueError caught and turned into "Use MM/AA."
    | TarjetaExpirada
    | MesInvalido
    | CodigoInvalido

  /** `clean_numero_tarjeta`: exactly sixteen digits. */
  function CleanNumeroTarjeta(numero: string): (r: Result<string, ErrorPago>)
    ensures r.Ok? <==> |numero| == 16 && AllDigits(numero)
    ensures r.Ok? ==> r.value == numero
    ensures r.Err? ==> r.error == NumeroInvalido
  {
    if !IsDigit(numero) || |numero| != 16 then Err(NumeroInvalido) else Ok(numero)
  }

  /** `clean_codigo_seguridad`: three or four digits. */
  function CleanCodigoSeguridad(codigo: string): (r: Result<string, ErrorPago>)
    ensures r.Ok? <==> 3 <= |codigo| <= 4 && AllDigits(codigo)
    ensures r.Ok? ==> r.value == codigo
    ensures r.Err? ==> r.error == CodigoInvalido
  {
    if !IsDigit(codigo) || !(3 <= |codigo| <= 4) then Err(CodigoInvalido) else Ok(codigo)
  }

  // ---------------------------------------------------------------------
  // Expiry date

  /** The parsing half of `clean_fecha_vencimiento`: split on '/' into
      exactly two parts, `int(mes)` and `int('20' + anio)`; None where the
      unpacking or an `int()` raises ValueError. The result is (month, year). */
  function LeerVencimiento(fecha: string): (r: Option<(int, int)>)
    ensures Count(fecha, '/') != 1 ==> r == None
  {
    var partes := Split(fecha, '/');
    if |partes| != 2 then None
    else
      var mes := ParseInt(partes[0]);
      var anio := ParseInt("20" + partes[1]);
      if mes.None? || anio.None? then None else Some((mes.value, anio.value))
  }

  /** Text with one slash: it is read exactly when int() reads the month
      part and "20" followed by the year part, and then as those two
      numbers. With `Count(fecha, '/') != 1 ==> None` this fixes the parse. */
  lemma {:induction false} LeerVencimientoPartes(mes: string, anio: string)
    requires '/' !in mes && '/' !in anio
    ensures LeerVencimiento(mes + "/" + anio) ==
            if ParseInt(mes).Some? && ParseInt("20" + anio).Some?
            then Some((ParseInt(mes).value, ParseInt("20" + anio).value))
            else None
  {
    SplitOnce(mes, anio, '/');
    assert mes + "/" + anio == mes + ['/'] + anio;
  }

  /** A month part with a character int() does not accept (a letter, say)
      is a format error, whatever the year part. */
  lemma MesNoNumerico(mes: string, anio: string, k: nat, anioActual: int, mesActual: int)
    requires '/' !in mes && '/' !in anio
    requires k < |mes| && !EnEntero(mes[k])
    ensures CleanFechaVencimiento(mes + "/" + anio, anioActual, mesActual) == Err(FormatoFechaInvalido)
  {
    ParseIntRechaza(mes);
    LeerVencimientoPartes(mes, anio);
  }

  /** A separator \x1c-\x1f after the month digits, as in "1\x1c/30", is
      the format error: str.isspace() counts it as whitespace, int() does
      not skip it. */
  lemma SeparadorEnMes(d: string, c: char, anio: string, anioActual: int, mesActual: int)
    requires IsDigit(d) && 28 <= c as int <= 31 && '/' !in anio
    ensures IsSpace(c)
    ensures CleanFechaVencimiento(d + [c] + "/" + anio, anioActual, mesActual) == Err(FormatoFechaInvalido)
  {
    var mes := d + [c];
    assert mes[|d|] == c;
    assert '/' !in mes by {
      assert forall k :: 0 <= k < |mes| ==> mes[k] == c || IsAsciiDigit(mes[k]);
    }
    MesNoNumerico(mes, anio, |d|, anioActual, mesActual);
  }

  /** The expiry test as written: an earlier year, or the current year and
      an earlier month. */
  predicate Expirada(mes: int, anio: int, mesActual: int, anioActual: int) {
    anio < anioActual || (anio == anioActual && mes < mesActual)
  }

  /** `clean_fecha_vencimiento`: a format error when the text does not parse,
      then the expiry test, then the month range; the text is given back
      unchanged. */
  function CleanFechaVencimiento(fecha: string, anioActual: int, mesActual: int): (r: Result<string, ErrorPago>)
    ensures r == Err(FormatoFechaInvalido) <==> LeerVencimiento(fecha).None?
    ensures r == Err(TarjetaExpirada) <==>
              LeerVencimiento(fecha).Some? &&
              Expirada(LeerVencimiento(fecha).value.0, LeerVencimiento(fecha).value.1, mesActual, anioActual)
    ensures r == Err(MesInvalido) <==>
              LeerVencimiento(fecha).Some? &&
              !Expirada(LeerVencimiento(fecha).value.0, LeerVencimiento(fecha).value.1, mesActual, anioActual) &&
              !(1 <= LeerVencimiento(fecha).value.0 <= 12)
    ensures r.Ok? ==> r.value == fecha
    ensures r.Err? ==> r.error in {FormatoFechaInvalido, TarjetaExpirada, MesInvalido}
  {
    match LeerVencimiento(fecha)
    case None => Err(FormatoFechaInvalido)
    case Some((mes, anio)) => Veredicto(fecha, mes, anio, anioActual, mesActual)
  }

  /** The checks on a parsed expiry date, in the order they run: expired
      first, then the month range. */
  function Veredicto(fecha: string, mes: int, anio: int, anioActual: int, mesActual: int): Result<string, ErrorPago> {
    if Expirada(mes, anio, mesActual, anioActual) then Err(TarjetaExpirada)
    else if !(1 <= mes <= 12) then Err(MesInvalido)
    else Ok(fecha)
  }

  /** With months in range, "expired" is "an earlier month counted from year
      zero": the year-then-month test is the order of months in time. */
  lemma ExpiradaPorMeses(mes: int, anio: int, mesActual: int, anioActual: int)
    requires 1 <= mes <= 12 && 1 <= mesActual <= 12
    ensures Expirada(mes, anio, mesActual, anioActual) <==> anio * 12 + mes < anioActual * 12 + mesActual
  {
    if anio < anioActual {
      assert anio * 12 <= (anioActual - 1) * 12;
    } else if anio > anioActual {
      assert anio * 12 >= (anioActual + 1) * 12;
    }
  }

  lemma ValorVeinte()
    ensures AllDigits("20") && DigitsValue("20") == 20
  {
    assert "20"[..1] == "2";
    assert "2"[..0] == [];
  }

  /** The value of "20" followed by the digits `aa`. */
  lemma AnioConPrefijo(aa: string)
    requires AllDigits(aa)
    ensures IsDigit("20" + aa)
    ensures DigitsValue("20" + aa) == 20 * Pow10(|aa|) + DigitsValue(aa)
  {
    ValorVeinte();
    DigitsValueAppend("20", aa);
  }

  lemma SinBarra(s: string)
    requires AllDigits(s)
    ensures '/' !in s
  {
  }

  lemma LeerDePartes(fecha: string, mes: string, anio: string)
    requires Split(fecha, '/') == [mes, anio]
    requires ParseInt(mes).Some? && ParseInt("20" + anio).Some?
    ensures LeerVencimiento(fecha) == Some((ParseInt(mes).value, ParseInt("20" + anio).value))
  {
  }

  lemma AnioLeido(aa: string)
    requires AllDigits(aa)
    ensures IsDigit("20" + aa)
    ensures ParseInt("20" + aa) == Some(DigitsValue("20" + aa))
  {
    AnioConPrefijo(aa);
  }

  /** Digits, a slash and digits parse as the month and the year "20" followed
      by the year digits. */
  lemma {:induction false} LeerDigitos(mm: string, aa: string)
    requires IsDigit(mm) && AllDigits(aa)
    ensures LeerVencimiento(mm + "/" + aa) == Some((DigitsValue(mm), DigitsValue("20" + aa)))
  {
    SinBarra(mm);
    SinBarra(aa);
    SplitOnce(mm, aa, '/');
    assert mm + "/" + aa == mm + ['/'] + aa;
    AnioLeido(aa);
    LeerDePartes(mm + "/" + aa, mm, aa);
  }

  /** Text "MM/AA" of digits: the month is MM and the year the number
      written "20AA", and the result is decided by those numbers alone. */
  lemma {:induction false} VencimientoDeDigitos(mm: string, aa: string, anioActual: int, mesActual: int)
    requires IsDigit(mm) && AllDigits(aa)
    ensures AllDigits("20" + aa)
    ensures CleanFechaVencimiento(mm + "/" + aa, anioActual, mesActual) ==
            Veredicto(mm + "/" + aa, DigitsValue(mm), DigitsValue("20" + aa), anioActual, mesActual)
  {
    AnioLeido(aa);
    var fecha, mes, anio := mm + "/" + aa, DigitsValue(mm), DigitsValue("20" + aa);
    LeerDigitos(mm, aa);
    CleanDeLectura(fecha, mes, anio, anioActual, mesActual);
  }

  lemma CleanDeLectura(fecha: string, mes: int, anio: int, anioActual: int, mesActual: int)
    requires LeerVencimiento(fecha) == Some((mes, anio))
    ensures CleanFechaVencimiento(fecha, anioActual, mesActual) == Veredicto(fecha, mes, anio, anioActual, mesActual)
  {
  }

  /** Two year digits give the year 2000 + AA. */
  lemma AnioDosDigitos(aa: string)
    requires AllDigits(aa) && |aa| == 2
    ensures AllDigits("20" + aa) && DigitsValue("20" + aa) == 2000 + DigitsValue(aa)
  {
    AnioConPrefijo(aa);
    assert Pow10(2) == 100;
  }

  /** A card that expires this very month is still accepted. */
  lemma MesActualAceptado(mm: string, aa: string, anioActual: int, mesActual: int)
    requires IsDigit(mm) && AllDigits(aa) && |aa| == 2
    requires DigitsValue(mm) == mesActual && 2000 + DigitsValue(aa) == anioActual
    requires 1 <= mesActual <= 12
    ensures CleanFechaVencimiento(mm + "/" + aa, anioActual, mesActual) == Ok(mm + "/" + aa)
  {
    VencimientoDeDigitos(mm, aa, anioActual, mesActual);
    AnioDosDigitos(aa);
  }

  /** The expiry test runs before the month-range test: a month out of range
      in a past year is reported as expired, not as an invalid month. */
  lemma ExpiradaAntesQueMes(mm: string, aa: string, anioActual: int, mesActual: int)
    requires IsDigit(mm) && AllDigits(aa) && |aa| == 2
    requires DigitsValue(mm) > 12 && 2000 + DigitsValue(aa) < anioActual
    ensures CleanFechaVencimiento(mm + "/" + aa, anioActual, mesActual) == Err(TarjetaExpirada)
  {
    VencimientoDeDigitos(mm, aa, anioActual, mesActual);
    AnioDosDigitos(aa);
  }

  /** A text with no year after the slash reads as `int("20")`, the year 20. */
  lemma SinAnio(mm: string, anioActual: int, mesActual: int)
    requires IsDigit(mm) && anioActual > 20
    ensures CleanFechaVencimiento(mm + "/", anioActual, mesActual) == Err(TarjetaExpirada)
  {
    VencimientoDeDigitos(mm, "", anioActual, mesActual);
    ValorVeinte();
    assert "20" + "" == "20";
    assert mm + "/" + "" == mm + "/";
  }
}
