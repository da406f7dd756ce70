/** The string built-ins the source relies on, restricted to ASCII: Python's
    str.lower, str.capitalize, str.isdigit, str.strip, str.split and int(),
    and JavaScript's `replace(/\D/g, '')`. */
module Texto {
  import opened Wrappers

  predicate IsAsciiDigit(c: char) {
    '0' <= c <= '9'
  }

  /** Every character is one of 0-9 (true of the empty string). */
  predicate AllDigits(s: string) {
    forall i :: 0 <= i < |s| ==> IsAsciiDigit(s[i])
  }

  /** Python's str.isdigit(): false on the empty string. */
  predicate IsDigit(s: string) {
    |s| > 0 && AllDigits(s)
  }

  function DigitValue(c: char): int {
    c as int - '0' as int
  }

  function Pow10(n: nat): (p: int)
    ensures p >= 1
  {
    if n == 0 then 1 else 10 * Pow10(n - 1)
  }

  // ---------------------------------------------------------------------
  // Case mapping

  function LowerChar(c: char): char {
    if 'A' <= c <= 'Z' then (c as int + 32) as char else c
  }

  function UpperChar(c: char): char {
    if 'a' <= c <= 'z' then (c as int - 32) as char else c
  }

  /** Python's str.lower(): no upper-case letter is left, and every other
      character stays where it was. */
  function Lower(s: string): (r: string)
    ensures |r| == |s| && NoUpper(r)
    ensures forall i :: 0 <= i < |s| && !('A' <= s[i] <= 'Z') ==> r[i] == s[i]
  {
    seq(|s|, i requires 0 <= i < |s| => LowerChar(s[i]))
  }

  /** Python's str.capitalize(): first character upper-cased, the rest lower-cased. */
  function Capitalize(s: string): (r: string)
    ensures |r| == |s|
    ensures |s| > 0 ==> !('a' <= r[0] <= 'z') && NoUpper(r[1..])
  {
    if s == [] then [] else [UpperChar(s[0])] + Lower(s[1..])
  }

  predicate NoUpper(s: string) {
    forall i :: 0 <= i < |s| ==> !('A' <= s[i] <= 'Z')
  }

  /** A string without upper-case letters is its own lower-case form, so a
      literal such as "disponible" compares with Lower(name) as written. */
  lemma LowerOfLowercase(s: string)
    requires NoUpper(s)
    ensures Lower(s) == s
  {
  }

  /** Capitalising does not change what a case-insensitive comparison sees. */
  lemma LowerCapitalize(s: string)
    ensures Lower(Capitalize(s)) == Lower(s)
  {
    if s != [] {
      var c := Capitalize(s);
      var resto := Lower(s[1..]);
      assert c == [UpperChar(s[0])] + resto;
      forall i | 0 <= i < |s| ensures LowerChar(c[i]) == LowerChar(s[i]) {
        if i == 0 {
          LowerUpperChar(s[0]);
        } else {
          assert c[i] == resto[i - 1] == LowerChar(s[i]);
          LowerLowerChar(s[i]);
        }
      }
      LowerIgual(c, s);
    }
  }

  /** Strings equal character by character once lower-cased. */
  lemma LowerIgual(a: string, b: string)
    requires |a| == |b|
    requires forall i :: 0 <= i < |a| ==> LowerChar(a[i]) == LowerChar(b[i])
    ensures Lower(a) == Lower(b)
  {
  }

  lemma LowerUpperChar(c: char)
    ensures LowerChar(UpperChar(c)) == LowerChar(c)
  {
  }

  lemma LowerLowerChar(c: char)
    ensures LowerChar(LowerChar(c)) == LowerChar(c)
  {
  }

  // ---------------------------------------------------------------------
  // Whitespace

  /** Python's str.isspace() on ASCII: space, \t \n \v \f \r and \x1c-\x1f. */
  predicate IsSpace(c: char) {
    c == ' ' || (9 <= c as int <= 13) || (28 <= c as int <= 31)
  }

  /** The ASCII whitespace int() skips around a number: space and
      \t \n \v \f \r, but not the separators \x1c-\x1f. */
  predicate IntSpace(c: char) {
    c == ' ' || 9 <= c as int <= 13
  }

  /** Which whitespace is cut off: str.strip()'s or int()'s. */
  datatype Espacios = DeStrip | DeInt

  predicate Blanco(e: Espacios, c: char) {
    if e == DeStrip then IsSpace(c) else IntSpace(c)
  }

  /** Where the text of `s[i..]` begins once leading whitespace is skipped. */
  function Inicio(e: Espacios, s: string, i: nat): (j: nat)
    requires i <= |s|
    ensures i <= j <= |s|
    ensures forall k :: i <= k < j ==> Blanco(e, s[k])
    ensures j == |s| || !Blanco(e, s[j])
    decreases |s| - i
  {
    if i < |s| && Blanco(e, s[i]) then Inicio(e, s, i + 1) else i
  }

  /** Where the text of `s[i..j]` ends once trailing whitespace is dropped. */
  function Fin(e: Espacios, s: string, i: nat, j: nat): (f: nat)
    requires i <= j <= |s|
    ensures i <= f <= j
    ensures forall k :: f <= k < j ==> Blanco(e, s[k])
    ensures f == i || !Blanco(e, s[f - 1])
    decreases j
  {
    if i < j && Blanco(e, s[j - 1]) then Fin(e, s, i, j - 1) else j
  }

  /** `s` with its leading and trailing whitespace cut off: the result
      neither starts nor ends with whitespace, and it is empty exactly when
      the input is all whitespace. */
  function Recortar(e: Espacios, s: string): (r: string)
    ensures r == [] || (!Blanco(e, r[0]) && !Blanco(e, r[|r| - 1]))
    ensures r == [] <==> forall i :: 0 <= i < |s| ==> Blanco(e, s[i])
  {
    var i := Inicio(e, s, 0);
    var f := Fin(e, s, i, |s|);
    assert f == i ==> forall k :: 0 <= k < |s| ==> Blanco(e, s[k]);
    s[i..f]
  }

  /** Python's str.strip(). */
  function Strip(s: string): (r: string)
    ensures r == [] || (!IsSpace(r[0]) && !IsSpace(r[|r| - 1]))
    ensures r == [] <==> forall i :: 0 <= i < |s| ==> IsSpace(s[i])
  {
    Recortar(DeStrip, s)
  }

  /** Only one position fits the description of `Inicio`. */
  lemma InicioUnico(e: Espacios, s: string, i: nat, j: nat)
    requires i <= j <= |s|
    requires forall k :: i <= k < j ==> Blanco(e, s[k])
    requires j == |s| || !Blanco(e, s[j])
    ensures Inicio(e, s, i) == j
  {
  }

  /** Only one position fits the description of `Fin`. */
  lemma FinUnico(e: Espacios, s: string, i: nat, j: nat, f: nat)
    requires i <= f <= j <= |s|
    requires forall k :: f <= k < j ==> Blanco(e, s[k])
    requires f == i || !Blanco(e, s[f - 1])
    ensures Fin(e, s, i, j) == f
  {
  }

  /** What is left after cutting is a slice of the input with only
      whitespace before and after it. */
  lemma RecortarTramo(e: Espacios, s: string)
    ensures var i := Inicio(e, s, 0);
            0 <= i <= i + |Recortar(e, s)| <= |s| && Recortar(e, s) == s[i..i + |Recortar(e, s)|] &&
            (forall k :: 0 <= k < i ==> Blanco(e, s[k])) &&
            (forall k :: i + |Recortar(e, s)| <= k < |s| ==> Blanco(e, s[k]))
  {
  }

  /** Whitespace added in front is cut away again. */
  lemma RecortarEspacioInicial(e: Espacios, s: string, c: char)
    requires Blanco(e, c)
    ensures Recortar(e, [c] + s) == Recortar(e, s)
  {
    var t := [c] + s;
    var i := Inicio(e, s, 0);
    var f := Fin(e, s, i, |s|);
    InicioConEspacio(e, s, c);
    FinConEspacio(e, s, c);
    CorteDesplazado(c, s, i, f);
    RecortarEs(e, t, i + 1, f + 1);
    RecortarEs(e, s, i, f);
  }

  /** `Recortar` is the slice between `Inicio` and `Fin`. */
  lemma RecortarEs(e: Espacios, s: string, i: nat, f: nat)
    requires i == Inicio(e, s, 0) && f == Fin(e, s, i, |s|)
    ensures Recortar(e, s) == s[i..f]
  {
  }

  /** Slicing behind one prepended character. */
  lemma CorteDesplazado(c: char, s: string, i: nat, f: nat)
    requires i <= f <= |s|
    ensures ([c] + s)[i + 1..f + 1] == s[i..f]
  {
  }

  lemma InicioConEspacio(e: Espacios, s: string, c: char)
    requires Blanco(e, c)
    ensures Inicio(e, [c] + s, 0) == Inicio(e, s, 0) + 1
  {
    var t := [c] + s;
    var i := Inicio(e, s, 0);
    forall k | 0 <= k < i + 1 ensures Blanco(e, t[k]) {
      if k > 0 { assert t[k] == s[k - 1]; }
    }
    if i < |s| { assert t[i + 1] == s[i]; }
    InicioUnico(e, t, 0, i + 1);
  }

  lemma FinConEspacio(e: Espacios, s: string, c: char)
    ensures Fin(e, [c] + s, Inicio(e, s, 0) + 1, |s| + 1) == Fin(e, s, Inicio(e, s, 0), |s|) + 1
  {
    var t := [c] + s;
    var i := Inicio(e, s, 0);
    var f := Fin(e, s, i, |s|);
    forall k | f + 1 <= k < |t| ensures Blanco(e, t[k]) {
      assert t[k] == s[k - 1];
    }
    if f != i { assert t[f] == s[f - 1]; }
    FinUnico(e, t, i + 1, |t|, f + 1);
  }

  /** Whitespace added at the end is cut away again. */
  lemma RecortarEspacioFinal(e: Espacios, s: string, c: char)
    requires Blanco(e, c)
    ensures Recortar(e, s + [c]) == Recortar(e, s)
  {
    var t := s + [c];
    var i := Inicio(e, s, 0);
    var f := Fin(e, s, i, |s|);
    InicioEspacioFinal(e, s, c);
    if i < |s| {
      FinEspacioFinal(e, s, c);
      CorteConFinal(s, c, i, f);
      RecortarEs(e, t, i, f);
      RecortarEs(e, s, i, f);
    } else {
      assert Recortar(e, t) == [];
      assert Recortar(e, s) == [];
    }
  }

  /** Slicing in front of one appended character. */
  lemma CorteConFinal(s: string, c: char, i: nat, f: nat)
    requires i <= f <= |s|
    ensures (s + [c])[i..f] == s[i..f]
  {
  }

  lemma InicioEspacioFinal(e: Espacios, s: string, c: char)
    requires Blanco(e, c)
    ensures Inicio(e, s + [c], 0) == if Inicio(e, s, 0) < |s| then Inicio(e, s, 0) else |s| + 1
  {
    var t := s + [c];
    var i := Inicio(e, s, 0);
    forall k | 0 <= k < i ensures Blanco(e, t[k]) {
      assert t[k] == s[k];
    }
    if i < |s| {
      assert t[i] == s[i];
      InicioUnico(e, t, 0, i);
    } else {
      InicioUnico(e, t, 0, |t|);
    }
  }

  lemma FinEspacioFinal(e: Espacios, s: string, c: char)
    requires Blanco(e, c) && Inicio(e, s, 0) < |s|
    ensures Fin(e, s + [c], Inicio(e, s, 0), |s| + 1) == Fin(e, s, Inicio(e, s, 0), |s|)
  {
    var t := s + [c];
    var i := Inicio(e, s, 0);
    var f := Fin(e, s, i, |s|);
    forall k | f <= k < |t| ensures Blanco(e, t[k]) {
      if k < |s| { assert t[k] == s[k]; }
    }
    if f != i { assert t[f - 1] == s[f - 1]; }
    FinUnico(e, t, i, |t|, f);
  }

  /** A string without whitespace at its ends is left as it is. */
  lemma RecortarSinBordes(e: Espacios, s: string)
    requires s != [] && !Blanco(e, s[0]) && !Blanco(e, s[|s| - 1])
    ensures Recortar(e, s) == s
  {
    InicioUnico(e, s, 0, 0);
    FinUnico(e, s, 0, |s|, |s|);
    assert s[0..|s|] == s;
  }

  // ---------------------------------------------------------------------
  // Digit filtering (JavaScript `value.replace(/\D/g, '')`)

  /** The digits of `s`, in order: `\D` in a JavaScript regular expression
      without the `u` flag is every character except 0-9. */
  function RemoveNonDigits(s: string): (r: string)
    ensures AllDigits(r)
    ensures |r| <= |s|
    ensures AllDigits(s) ==> r == s
    ensures r == [] <==> forall i :: 0 <= i < |s| ==> !IsAsciiDigit(s[i])
  {
    if s == [] then []
    else (if IsAsciiDigit(s[0]) then [s[0]] else []) + RemoveNonDigits(s[1..])
  }

  /** One character is kept exactly when it is a digit. */
  lemma RemoveNonDigitsCaracter(c: char)
    ensures RemoveNonDigits([c]) == if IsAsciiDigit(c) then [c] else []
  {
    assert [c][1..] == [];
  }

  lemma {:induction false} RemoveNonDigitsAppend(a: string, b: string)
    ensures RemoveNonDigits(a + b) == RemoveNonDigits(a) + RemoveNonDigits(b)
  {
    if a == [] {
      assert a + b == b;
    } else {
      RemoveNonDigitsAppend(a[1..], b);
      RemoveNonDigitsAppendPaso(a, b);
    }
  }

  /** The inductive step of `RemoveNonDigitsAppend`: from the tail to the
      whole of `a`. */
  lemma RemoveNonDigitsAppendPaso(a: string, b: string)
    requires a != []
    requires RemoveNonDigits(a[1..] + b) == RemoveNonDigits(a[1..]) + RemoveNonDigits(b)
    ensures RemoveNonDigits(a + b) == RemoveNonDigits(a) + RemoveNonDigits(b)
  {
    var t := a + b;
    var head := if IsAsciiDigit(a[0]) then [a[0]] else [];
    var ra, rb := RemoveNonDigits(a[1..]), RemoveNonDigits(b);
    ColaDeConcatenacion(a, b);
    calc {
      RemoveNonDigits(t);
    == { RemoveNonDigitsPrimero(t); }
      head + RemoveNonDigits(a[1..] + b);
    ==
      head + (ra + rb);
    == { Asociativa(head, ra, rb); }
      (head + ra) + rb;
    == { RemoveNonDigitsPrimero(a); }
      RemoveNonDigits(a) + rb;
    }
  }

  lemma ColaDeConcatenacion(a: string, b: string)
    requires a != []
    ensures (a + b)[0] == a[0] && (a + b)[1..] == a[1..] + b
  {
  }

  lemma Asociativa(x: string, y: string, z: string)
    ensures x + (y + z) == (x + y) + z
  {
  }

  /** One step of the filter: the first character, if a digit, then the
      digits of the rest. */
  lemma RemoveNonDigitsPrimero(s: string)
    requires s != []
    ensures RemoveNonDigits(s) == (if IsAsciiDigit(s[0]) then [s[0]] else []) + RemoveNonDigits(s[1..])
  {
  }

  // ---------------------------------------------------------------------
  // Splitting (Python's str.split(sep) with an explicit separator)

  function Count(s: string, c: char): nat {
    if s == [] then 0 else (if s[0] == c then 1 else 0) + Count(s[1..], c)
  }

  function Split(s: string, sep: char): (parts: seq<string>)
    ensures |parts| == Count(s, sep) + 1
    ensures forall k :: 0 <= k < |parts| ==> sep !in parts[k]
  {
    if s == [] then [[]]
    else
      var rest := Split(s[1..], sep);
      if s[0] == sep then [[]] + rest
      else [[s[0]] + rest[0]] + rest[1..]
  }

  /** sep.join(parts) */
  function Join(parts: seq<string>, sep: char): string
    requires |parts| >= 1
  {
    if |parts| == 1 then parts[0] else parts[0] + [sep] + Join(parts[1..], sep)
  }

  /** Splitting loses nothing: joining the parts with the separator gives the
      original string back. */
  lemma {:induction false} JoinSplit(s: string, sep: char)
    ensures Join(Split(s, sep), sep) == s
  {
    if s != [] {
      var rest := Split(s[1..], sep);
      JoinSplit(s[1..], sep);
      if s[0] == sep {
        assert Split(s, sep)[1..] == rest;
      } else {
        var parts := Split(s, sep);
        if |rest| == 1 {
          assert parts == [[s[0]] + rest[0]];
        } else {
          assert parts[1..] == rest[1..];
          assert Join(rest, sep) == rest[0] + [sep] + Join(rest[1..], sep);
        }
      }
    }
  }

  /** "a/b" with no separator in a or b splits into exactly [a, b]. */
  lemma {:induction false} SplitOnce(a: string, b: string, sep: char)
    requires sep !in a && sep !in b
    ensures Split(a + [sep] + b, sep) == [a, b]
  {
    if a == [] {
      assert [] + [sep] + b == [sep] + b;
      assert ([sep] + b)[1..] == b;
      SplitNone(b, sep);
    } else {
      assert (a + [sep] + b)[1..] == a[1..] + [sep] + b;
      SplitOnce(a[1..], b, sep);
      assert [a[0]] + a[1..] == a;
    }
  }

  lemma {:induction false} SplitNone(s: string, sep: char)
    requires sep !in s
    ensures Split(s, sep) == [s]
  {
    if s != [] {
      SplitNone(s[1..], sep);
      assert [s[0]] + s[1..] == s;
    }
  }

  // ---------------------------------------------------------------------
  // Python's int() on a base-10 string

  /** The value of a string of decimal digits. */
  function DigitsValue(s: string): (n: int)
    requires AllDigits(s)
    ensures 0 <= n < Pow10(|s|)
  {
    if s == [] then 0 else DigitsValue(s[..|s| - 1]) * 10 + DigitValue(s[|s| - 1])
  }

  /** Digits with single underscores between them, as int() accepts. */
  predicate IsDigitGroups(s: string) {
    |s| > 0 && IsAsciiDigit(s[0]) && IsAsciiDigit(s[|s| - 1]) &&
    (forall i :: 0 <= i < |s| ==> IsAsciiDigit(s[i]) || s[i] == '_') &&
    (forall i :: 0 <= i < |s| - 1 ==> s[i] == '_' ==> s[i + 1] != '_')
  }

  function RemoveUnderscores(s: string): (r: string)
    ensures (forall i :: 0 <= i < |s| ==> IsAsciiDigit(s[i]) || s[i] == '_') ==> AllDigits(r)
    ensures AllDigits(s) ==> r == s
  {
    if s == [] then []
    else (if s[0] == '_' then [] else [s[0]]) + RemoveUnderscores(s[1..])
  }

  /** Digit groups read as a number: None unless `body` is digits with
      single underscores between them. */
  function ParseDigitGroups(body: string): (r: Option<int>)
    ensures IsDigit(body) ==> r == Some(DigitsValue(body))
    ensures r.Some? ==> r.value >= 0
  {
    if IsDigitGroups(body) then Some(DigitsValue(RemoveUnderscores(body))) else None
  }

  /** int() on text already stripped: an optional sign, then digit groups. */
  function ParseSigned(t: string): Option<int> {
    if |t| > 0 && t[0] == '-' then
      match ParseDigitGroups(t[1..])
      case None => None
      case Some(n) => Some(-n)
    else if |t| > 0 && t[0] == '+' then ParseDigitGroups(t[1..])
    else ParseDigitGroups(t)
  }

  /** Python's int(s): surrounding whitespace, an optional sign, then digit
      groups; None where Python raises ValueError. A string of str.isspace()
      characters only is rejected, the separators \x1c-\x1f included. */
  function ParseInt(s: string): (r: Option<int>)
    ensures IsDigit(s) ==> r == Some(DigitsValue(s))
    ensures (forall i :: 0 <= i < |s| ==> IsSpace(s[i])) ==> r == None
  {
    var t := Recortar(DeInt, s);
    RecortarTramo(DeInt, s);
    if IsDigit(s) then RecortarSinBordes(DeInt, s); ParseSigned(t)
    else ParseSigned(t)
  }

  /** A text that starts with neither a sign nor a digit is no number. */
  lemma RechazaSinDigitoInicial(t: string)
    requires t != [] && t[0] != '-' && t[0] != '+' && !IsAsciiDigit(t[0])
    ensures ParseSigned(t) == None
  {
  }

  /** The characters int() lets through: digits, the whitespace it skips,
      a sign and the underscore between digit groups. */
  predicate EnEntero(c: char) {
    IsAsciiDigit(c) || IntSpace(c) || c == '+' || c == '-' || c == '_'
  }

  lemma CaracteresDeTramo(t: string)
    requires ParseSigned(t).Some?
    ensures forall k :: 0 <= k < |t| ==> EnEntero(t[k])
    ensures exists k :: 0 <= k < |t| && IsAsciiDigit(t[k])
  {
    var d := if |t| > 0 && (t[0] == '+' || t[0] == '-') then 1 else 0;
    var body := t[d..];
    assert IsDigitGroups(body);
    forall k | 0 <= k < |t| ensures EnEntero(t[k]) {
      if k >= d {
        assert t[k] == body[k - d];
      }
    }
    assert t[d] == body[0];
  }

  /** What int() rejects: a text with a character other than a digit,
      the whitespace it skips, a sign or an underscore, or a text without
      any digit. */
  lemma ParseIntRechaza(s: string)
    ensures ParseInt(s).Some? ==> forall k :: 0 <= k < |s| ==> EnEntero(s[k])
    ensures ParseInt(s).Some? ==> exists k :: 0 <= k < |s| && IsAsciiDigit(s[k])
  {
    var t := Recortar(DeInt, s);
    if ParseSigned(t).Some? {
      CaracteresDeTramo(t);
      RecortadoEnEntero(s);
    }
  }

  /** The characters int() lets through survive adding the whitespace it
      skips. */
  lemma RecortadoEnEntero(s: string)
    requires forall k :: 0 <= k < |Recortar(DeInt, s)| ==> EnEntero(Recortar(DeInt, s)[k])
    requires exists k :: 0 <= k < |Recortar(DeInt, s)| && IsAsciiDigit(Recortar(DeInt, s)[k])
    ensures forall k :: 0 <= k < |s| ==> EnEntero(s[k])
    ensures exists k :: 0 <= k < |s| && IsAsciiDigit(s[k])
  {
    RecortarTramo(DeInt, s);
    TramoEnEntero(s, Inicio(DeInt, s, 0), Recortar(DeInt, s));
  }

  /** A slice whose characters int() lets through, with at least one digit,
      and with only whitespace int() skips around it in the text. */
  lemma TramoEnEntero(s: string, i: nat, t: string)
    requires i + |t| <= |s| && t == s[i..i + |t|]
    requires forall k :: 0 <= k < i ==> Blanco(DeInt, s[k])
    requires forall k :: i + |t| <= k < |s| ==> Blanco(DeInt, s[k])
    requires forall k :: 0 <= k < |t| ==> EnEntero(t[k])
    requires exists k :: 0 <= k < |t| && IsAsciiDigit(t[k])
    ensures forall k :: 0 <= k < |s| ==> EnEntero(s[k])
    ensures exists k :: 0 <= k < |s| && IsAsciiDigit(s[k])
  {
    forall k | 0 <= k < |s| ensures EnEntero(s[k]) {
      if i <= k < i + |t| {
        assert s[k] == t[k - i];
      }
    }
    var m :| 0 <= m < |t| && IsAsciiDigit(t[m]);
    assert s[i + m] == t[m];
  }

  /** A sign in front of digits gives their value with that sign. */
  lemma ParseIntSigno(d: string)
    requires IsDigit(d)
    ensures ParseInt("-" + d) == Some(-DigitsValue(d))
    ensures ParseInt("+" + d) == Some(DigitsValue(d))
  {
    assert "-" + d == ['-'] + d && "+" + d == ['+'] + d;
    SinEspacioDelante('-', d);
    SinEspacioDelante('+', d);
    SignoLeido(d);
  }

  lemma SignoLeido(d: string)
    requires IsDigit(d)
    ensures ParseSigned(['-'] + d) == Some(-DigitsValue(d))
    ensures ParseSigned(['+'] + d) == Some(DigitsValue(d))
  {
    SignoMenosLeido(d);
    SignoMasLeido(d);
  }

  lemma SignoMenosLeido(d: string)
    requires IsDigit(d)
    ensures ParseSigned(['-'] + d) == Some(-DigitsValue(d))
  {
    var t := ['-'] + d;
    assert t[1..] == d;
    assert ParseDigitGroups(d) == Some(DigitsValue(d));
  }

  lemma SignoMasLeido(d: string)
    requires IsDigit(d)
    ensures ParseSigned(['+'] + d) == Some(DigitsValue(d))
  {
    var t := ['+'] + d;
    assert t[1..] == d;
    assert ParseDigitGroups(d) == Some(DigitsValue(d));
  }

  /** A character int() does not skip, in front of digits, is kept. */
  lemma SinEspacioDelante(c: char, d: string)
    requires IsDigit(d) && !IntSpace(c) && !IsAsciiDigit(c)
    ensures ParseInt([c] + d) == ParseSigned([c] + d)
  {
    var m := [c] + d;
    assert m[|m| - 1] == d[|d| - 1];
    RecortarSinBordes(DeInt, m);
    assert !IsAsciiDigit(m[0]);
  }

  /** The whitespace int() skips does not change what it reads. */
  lemma ParseIntEspacios(s: string, c: char)
    requires IntSpace(c)
    ensures ParseInt([c] + s) == ParseInt(s)
    ensures ParseInt(s + [c]) == ParseInt(s)
  {
    RecortarEspacioInicial(DeInt, s, c);
    RecortarEspacioFinal(DeInt, s, c);
  }

  /** The separators \x1c-\x1f are whitespace to str.strip() but not to
      int(): in front of digits, strip() removes one and int() rejects the
      text. */
  lemma ParseIntSeparador(c: char, d: string)
    requires 28 <= c as int <= 31 && IsDigit(d)
    ensures Strip([c] + d) == d
    ensures ParseInt([c] + d) == None
  {
    RecortarEspacioInicial(DeStrip, d, c);
    assert d[|d| - 1] in d;
    RecortarSinBordes(DeStrip, d);
    SinEspacioDelante(c, d);
    RechazaSinDigitoInicial([c] + d);
  }

  /** Appending digits shifts the value by a power of ten. */
  lemma {:induction false} DigitsValueAppend(a: string, b: string)
    requires AllDigits(a) && AllDigits(b)
    ensures AllDigits(a + b)
    ensures DigitsValue(a + b) == DigitsValue(a) * Pow10(|b|) + DigitsValue(b)
  {
    assert AllDigits(a + b) by {
      forall i | 0 <= i < |a + b| ensures IsAsciiDigit((a + b)[i]) {
        if i >= |a| { assert (a + b)[i] == b[i - |a|]; }
      }
    }
    if b == [] {
      assert a + b == a;
    } else {
      var b' := b[..|b| - 1];
      assert (a + b)[..|a + b| - 1] == a + b';
      assert (a + b)[|a + b| - 1] == b[|b| - 1];
      DigitsValueAppend(a, b');
      ShiftDigit(DigitsValue(a), Pow10(|b'|), DigitsValue(b'), DigitValue(b[|b| - 1]));
    }
  }

  lemma ShiftDigit(x: int, p: int, y: int, d: int)
    ensures (x * p + y) * 10 + d == x * (10 * p) + (y * 10 + d)
  {
  }
}
