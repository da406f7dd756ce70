/** The vehicle model of vehiculos/models.py: the three state predicates, the
    name-lookup setter `cambiar_estado`, the guarded transitions `reservar`,
    `liberar` and `enviar_a_mantenimiento`, and the two display mappings.

    A vehicle's `estado` is a nullable reference to a row of the Estado
    table; here it is the row's name, and the table is the set of names it
    holds. */
module Vehiculos {
  import opened Wrappers
  import opened Texto

  // ---------------------------------------------------------------------
  // State predicates (`disponible`, `esta_reservado`, `en_mantenimiento`)

  predicate Disponible(estado: Option<string>) {
    estado.Some? && Lower(estado.value) == "disponible"
  }

  predicate EstaReservado(estado: Option<string>) {
    estado.Some? && Lower(estado.value) == "reservado"
  }

  predicate EnMantenimiento(estado: Option<string>) {
    estado.Some? && Lower(estado.value) == "mantenimiento"
  }

  /** A vehicle is in at most one of the three named states; a null state, or
      a name that is none of the three, satisfies none of them. */
  lemma EstadosExclusivos(estado: Option<string>)
    ensures !(Disponible(estado) && EstaReservado(estado))
    ensures !(Disponible(estado) && EnMantenimiento(estado))
    ensures !(EstaReservado(estado) && EnMantenimiento(estado))
    ensures estado.None? ==> !Disponible(estado) && !EstaReservado(estado) && !EnMantenimiento(estado)
  {
  }

  // ---------------------------------------------------------------------
  // Display mappings

  /** `get_estado_color_class`: the Bootstrap badge class of the state. */
  function EstadoColorClass(estado: Option<string>): (r: string)
    ensures r == "bg-success" <==> Disponible(estado)
    ensures r == "bg-warning" <==> EstaReservado(estado)
    ensures r == "bg-danger" <==> EnMantenimiento(estado)
    ensures r == "bg-secondary" <==> !Disponible(estado) && !EstaReservado(estado) && !EnMantenimiento(estado)
  {
    var colores := map["disponible" := "bg-success", "reservado" := "bg-warning", "mantenimiento" := "bg-danger"];
    if estado.Some? && Lower(estado.value) in colores then colores[Lower(estado.value)] else "bg-secondary"
  }

  const IconoDisponible: char := '\U{2705}'     // white heavy check mark
  const IconoReservado: char := '\U{1F4C5}'     // calendar
  const IconoMantenimiento: char := '\U{1F527}' // wrench
  const IconoDesconocido: char := '\U{2753}'    // black question mark ornament

  /** `get_estado_display_with_icon`: an icon, a space and the capitalised
      state name, or "❓ Sin estado" for a vehicle without state. */
  function EstadoDisplayWithIcon(estado: Option<string>): (r: string)
    ensures |r| >= 2 && r[1] == ' '
    ensures r[0] == IconoDisponible <==> Disponible(estado)
    ensures r[0] == IconoReservado <==> EstaReservado(estado)
    ensures r[0] == IconoMantenimiento <==> EnMantenimiento(estado)
    ensures r[0] == IconoDesconocido <==> !Disponible(estado) && !EstaReservado(estado) && !EnMantenimiento(estado)
    ensures estado.None? ==> r[2..] == "Sin estado"
    ensures estado.Some? ==> r[2..] == Capitalize(estado.value)
  {
    var iconos := map["disponible" := IconoDisponible, "reservado" := IconoReservado, "mantenimiento" := IconoMantenimiento];
    if estado.Some? then
      var nombre := Capitalize(estado.value);
      var icono := if Lower(estado.value) in iconos then iconos[Lower(estado.value)] else IconoDesconocido;
      [icono] + " " + nombre
    else
      [IconoDesconocido] + " Sin estado"
  }

  /** The badge colour and the icon always describe the same state. */
  lemma ColorAndIconAgree(estado: Option<string>)
    ensures EstadoColorClass(estado) == "bg-success" <==> EstadoDisplayWithIcon(estado)[0] == IconoDisponible
    ensures EstadoColorClass(estado) == "bg-warning" <==> EstadoDisplayWithIcon(estado)[0] == IconoReservado
    ensures EstadoColorClass(estado) == "bg-danger" <==> EstadoDisplayWithIcon(estado)[0] == IconoMantenimiento
    ensures EstadoColorClass(estado) == "bg-secondary" <==> EstadoDisplayWithIcon(estado)[0] == IconoDesconocido
  {
  }

  /** The name shown after the icon denotes the same state, compared the way
      the state predicates compare. */
  lemma DisplayNameDenotesState(estado: Option<string>)
    requires estado.Some?
    ensures Lower(EstadoDisplayWithIcon(estado)[2..]) == Lower(estado.value)
  {
    LowerCapitalize(estado.value);
  }

  // ---------------------------------------------------------------------
  // The Estado table lookup of `cambiar_estado`

  /** The rows that `Estado.objects.get(nombre__iexact=nombre)` selects. */
  function Coincidencias(estados: set<string>, nombre: string): (r: set<string>)
    ensures r <= estados
    ensures nombre in estados ==> nombre in r
    ensures forall e :: e in r ==> Lower(e) == Lower(nombre)
  {
    set e | e in estados && Lower(e) == Lower(nombre)
  }

  /** What a model method that may raise gives back: its boolean result, or
      the MultipleObjectsReturned that `get` raises on an ambiguous name. */
  datatype Resultado = Retorna(valor: bool) | Excepcion

  /** The effect of `cambiar_estado(nombre)` on a vehicle whose state was
      `antes`: no matching row gives False and no change; exactly one sets the
      state to that row and gives True; several raise and change nothing. */
  ghost predicate EfectoCambio(estados: set<string>, nombre: string, antes: Option<string>,
                               r: Resultado, despues: Option<string>)
  {
    var m := Coincidencias(estados, nombre);
    if |m| == 0 then r == Retorna(false) && despues == antes
    else if |m| == 1 then r == Retorna(true) && despues.Some? && m == {despues.value}
    else r == Excepcion && despues == antes
  }

  /** The effect of `liberar()`: only a reserved vehicle or one in maintenance
      is handed to `cambiar_estado("disponible")`. */
  ghost predicate EfectoLiberar(estados: set<string>, antes: Option<string>,
                                r: Resultado, despues: Option<string>)
  {
    if EstaReservado(antes) || EnMantenimiento(antes) then EfectoCambio(estados, "disponible", antes, r, despues)
    else r == Retorna(false) && despues == antes
  }

  /** When `liberar()` raises: it hands the vehicle on to
      `cambiar_estado("disponible")` and several rows match that name. */
  predicate LiberarLanza(estados: set<string>, antes: Option<string>) {
    (EstaReservado(antes) || EnMantenimiento(antes)) && |Coincidencias(estados, "disponible")| > 1
  }

  lemma SingletonSet(m: set<string>, e: string)
    requires |m| == 1 && e in m
    ensures m == {e}
  {
    assert |m - {e}| == 0;
  }

  /** A successful `cambiar_estado` leaves the vehicle on a row of the table
      whose name matches the requested one case-insensitively. */
  lemma CambioExitoso(estados: set<string>, nombre: string, antes: Option<string>,
                      r: Resultado, despues: Option<string>)
    requires EfectoCambio(estados, nombre, antes, r, despues)
    requires r == Retorna(true)
    ensures despues.Some? && despues.value in estados
    ensures Lower(despues.value) == Lower(nombre)
  {
    assert despues.value in Coincidencias(estados, nombre);
  }

  /** A vehicle that `liberar()` succeeds on was Reservado or En
      Mantenimiento and ends up Disponible; any other outcome leaves its
      state as it was. */
  lemma {:induction false} LiberarDejaDisponible(estados: set<string>, antes: Option<string>,
                                                 r: Resultado, despues: Option<string>)
    requires EfectoLiberar(estados, antes, r, despues)
    ensures r == Retorna(true) ==> Disponible(despues) && (EstaReservado(antes) || EnMantenimiento(antes))
    ensures r != Retorna(true) ==> despues == antes
  {
    if r == Retorna(true) {
      CambioExitoso(estados, "disponible", antes, r, despues);
      LowerOfLowercase("disponible");
    }
  }

  // ---------------------------------------------------------------------
  // The vehicle object

  class Vehiculo {
    /** The Estado table: the state names a vehicle can refer to. */
    const estados: set<string>
    /** The vehicle's `estado` foreign key (null as None). */
    var estado: Option<string>

    ghost predicate Valid()
      reads this
    {
      estado.Some? ==> estado.value in estados
    }

    constructor (estados: set<string>, estado: Option<string>)
      requires estado.Some? ==> estado.value in estados
      ensures this.estados == estados && this.estado == estado
      ensures Valid()
    {
      this.estados := estados;
      this.estado := estado;
    }

    /** `cambiar_estado(nombre)`: case-insensitive lookup in the Estado table,
        then the assignment; the state is saved together with the change. */
    method CambiarEstado(nombre: string) returns (r: Resultado)
      requires Valid()
      modifies this
      ensures Valid()
      ensures EfectoCambio(estados, nombre, old(estado), r, estado)
    {
      var m := Coincidencias(estados, nombre);
      if |m| == 0 {
        return Retorna(false);
      }
      if |m| > 1 {
        return Excepcion;
      }
      var e :| e in m;
      SingletonSet(m, e);
      estado := Some(e);
      return Retorna(true);
    }

    /** `reservar()`: as written it passes "disponible" to `cambiar_estado`,
        so a vehicle that it accepts keeps its state. */
    method Reservar() returns (r: Resultado)
      requires Valid()
      modifies this
      ensures Valid()
      ensures Disponible(old(estado)) ==> EfectoCambio(estados, "disponible", old(estado), r, estado)
      ensures r == Retorna(false) <==> !Disponible(old(estado))
      ensures estado == old(estado)
    {
      if Disponible(estado) {
        ghost var antes := estado;
        LowerOfLowercase("disponible");
        assert antes.value in Coincidencias(estados, "disponible");
        r := CambiarEstado("disponible");
        if r == Retorna(true) {
          assert antes.value in Coincidencias(estados, "disponible");
        }
      } else {
        r := Retorna(false);
      }
    }

    /** `liberar()`: Reservado or Mantenimiento becomes Disponible. */
    method Liberar() returns (r: Resultado)
      requires Valid()
      modifies this
      ensures Valid()
      ensures EfectoLiberar(estados, old(estado), r, estado)
      ensures r == Retorna(true) ==> Disponible(estado)
      ensures !(EstaReservado(old(estado)) || EnMantenimiento(old(estado))) ==> r == Retorna(false) && estado == old(estado)
    {
      if EstaReservado(estado) || EnMantenimiento(estado) {
        r := CambiarEstado("disponible");
      } else {
        r := Retorna(false);
      }
      LiberarDejaDisponible(estados, old(estado), r, estado);
    }

    /** `enviar_a_mantenimiento()`: Disponible becomes Mantenimiento. */
    method EnviarAMantenimiento() returns (r: Resultado)
      requires Valid()
      modifies this
      ensures Valid()
      ensures Disponible(old(estado)) ==> EfectoCambio(estados, "mantenimiento", old(estado), r, estado)
      ensures r == Retorna(true) ==> Disponible(old(estado)) && EnMantenimiento(estado)
      ensures !Disponible(old(estado)) ==> r == Retorna(false) && estado == old(estado)
    {
      if Disponible(estado) {
        r := CambiarEstado("mantenimiento");
        if r == Retorna(true) {
          CambioExitoso(estados, "mantenimiento", old(estado), r, estado);
          LowerOfLowercase("mantenimiento");
        }
      } else {
        r := Retorna(false);
      }
    }
  }
}
