/** The entity classes of the client library and what each one declares.

    Each class body calls `attributes :a, :b, ...`, which defines an
    accessor pair per name and appends the name to a registry kept for
    that class alone. Accessors are inherited by subclasses, registries
    are not: `Patient` can set `id` (declared by `ApiPersistentObject`) but
    does not serialise it. */
module Schema {
  import opened Optional
  import opened RubyString

  datatype Class =
    | ApiObject | Office | Provider | ApiPersistentObject | Patient
    | Prescription | Workout | PrescribeRedirect

  /** The superclass named in each class definition; `ApiObject` is the
      root of the hierarchy. */
  function Superclass(c: Class): Option<Class> {
    match c
    case ApiObject => None
    case Patient => Some(ApiPersistentObject)
    case _ => Some(ApiObject)
  }

  /** Distance from the root, for termination of walks up the hierarchy. */
  function Depth(c: Class): nat {
    match c
    case ApiObject => 0
    case Patient => 2
    case _ => 1
  }

  /** `c` is `a` or inherits from it. */
  predicate IsA(c: Class, a: Class)
    decreases Depth(c)
  {
    c == a || (Superclass(c).Some? && IsA(Superclass(c).value, a))
  }

  /** The names registered by the `attributes` call in the body of `c`, in
      declaration order; no name is registered twice. */
  function Registry(c: Class): (fields: seq<string>)
    ensures forall i, j :: 0 <= i < j < |fields| ==> fields[i] != fields[j]
  {
    match c
    case ApiObject => []
    case Office =>
      ["id", "name", "address", "address2", "city", "state", "zip_code", "share_patients",
       "application_code"]
    case Provider =>
      ["first_name", "last_name", "email", "twitter", "facebook_name", "facebook_link", "prefix",
       "suffix", "accreditation"]
    case ApiPersistentObject => ["id"]
    case Patient => ["first_name", "last_name", "email", "is_connected", "external_id"]
    case Prescription => ["id", "instructions", "created_at", "workout"]
    case Workout =>
      ["id", "name", "difficulty", "time_to_complete", "body_area_names", "category_names",
       "equipment_names", "exercise_names"]
    case PrescribeRedirect => ["url"]
  }

  /** The names `n` for which an instance of `c` responds to `n=` (and
      to `n`): the accessors defined by `c` and by its ancestors. */
  function Settable(c: Class): set<string>
    decreases Depth(c)
  {
    (set f | f in Registry(c)) +
    match Superclass(c)
    case None => {}
    case Some(p) => Settable(p)
  }

  /** An accessor is available exactly when `c` or one of its ancestors
      declares the name. */
  lemma {:induction false} SettableIsInherited(c: Class, f: string)
    ensures f in Settable(c) <==> exists a :: IsA(c, a) && f in Registry(a)
    decreases Depth(c)
  {
    if Superclass(c).Some? {
      var p := Superclass(c).value;
      SettableIsInherited(p, f);
      if f in Settable(c) && f !in Registry(c) {
        var a :| IsA(p, a) && f in Registry(a);
        assert IsA(c, a);
      }
      if exists a :: IsA(c, a) && f in Registry(a) {
        var a :| IsA(c, a) && f in Registry(a);
        assert a == c || IsA(p, a);
      }
    } else {
      assert forall a :: IsA(c, a) ==> a == c;
    }
  }

  /** The subclasses of each class the client tests for: only
      `ApiPersistentObject` has one, `Patient`. */
  lemma Subclasses(c: Class)
    ensures IsPersistent(c) <==> c == ApiPersistentObject || c == Patient
    ensures IsA(c, Patient) <==> c == Patient
    ensures IsA(c, Provider) <==> c == Provider
    ensures IsA(c, Prescription) <==> c == Prescription
  {
  }

  /** A Patient can be given an `id` but its own registry lacks it. */
  lemma PatientIdIsInherited()
    ensures "id" in Settable(Patient) && "id" !in Registry(Patient)
  {
    assert "id" in Registry(ApiPersistentObject);
  }

  /** Persistent entities: `ApiPersistentObject` and its subclasses. */
  predicate IsPersistent(c: Class) {
    IsA(c, ApiPersistentObject)
  }

  /** The class name without its module. */
  function ShortName(c: Class): string {
    match c
    case ApiObject => "ApiObject"
    case Office => "Office"
    case Provider => "Provider"
    case ApiPersistentObject => "ApiPersistentObject"
    case Patient => "Patient"
    case Prescription => "Prescription"
    case Workout => "Workout"
    case PrescribeRedirect => "PrescribeRedirect"
  }

  /** `Class#name`: every class is defined inside `module MyRxx`. */
  function Name(c: Class): string {
    "MyRxx::" + ShortName(c)
  }

  /** Splitting a name qualified by `MyRxx` on `::` gives the module and
      the short name. */
  lemma QualifiedNameSplit(short: string)
    requires |short| > 0 && forall i :: 0 <= i < |short| ==> short[i] != ':'
    ensures Split("MyRxx::" + short, "::") == ["MyRxx", short]
  {
    assert "MyRxx::" + short == "MyRxx" + ("::" + short);
    SplitAllPrefix("MyRxx", "::" + short, "::");
    SplitAllAfterSep(short, "::");
    SplitAllPrefix(short, "", "::");
    assert short + "" == short;
    assert SplitAll("", "::") == [""];
    assert SplitAll(short, "::") == [short];
    assert SplitAll("::" + short, "::") == ["", short];
    assert "MyRxx" + "" == "MyRxx";
  }

  /** `save_method`: the last `::` segment of the class name, lower-cased,
      followed by `_update`; the name of the `Api` method that saves an
      instance. */
  function SaveMethod(c: Class): (m: string)
    ensures m == Downcase(ShortName(c)) + "_update"
  {
    QualifiedNameSplit(ShortName(c));
    var segments := Split(Name(c), "::");
    Downcase(segments[|segments| - 1]) + "_update"
  }

  /** A Patient saves through `patient_update`. */
  lemma PatientSavesThroughPatientUpdate()
    ensures SaveMethod(Patient) == "patient_update"
  {
    assert Downcase("Patient") == "patient";
  }
}
