/** The MyRxx client library: entity objects that are hydrated from and
    serialised to Ruby hashes, and the `Api` object that talks to the
    MyRxx server on behalf of an office and a provider.

    The transport (OAuth2 client, access token, HTTP) is not modelled:
    what the server answers is a `Reply` given to each operation, and the
    request it would be sent is returned next to the result. */
module MyRxx {
  import opened Optional
  import opened RubyHash
  import opened RubyString
  import opened Schema

  const LocalServerUrl := "http://myrxx.dev"
  const TestServerUrl := "http://myrxx-dev.herokuapp.com"
  const ProductionServerUrl := "https://myrxx.com"
  const ApiVersion := "2"

  // ---------------------------------------------------------------------
  // Ruby values
  // ---------------------------------------------------------------------

  /** A hash key: a symbol (`:email`) or a string (`"email"`). Both reach
      the same setter, `send("#{k}=")`, but they are different keys. */
  datatype Key = Sym(name: string) | Str(name: string)

  /** The Ruby values the library handles; a parsed JSON body is built from
      the first six. */
  datatype Value =
    | Nil
    | Bool(b: bool)
    | Int(i: int)
    | Text(s: string)
    | List(items: seq<Value>)
    | Hash(entries: seq<(Key, Value)>)
    | Obj(entity: Entity)

  type Pairs = seq<(Key, Value)>

  /** Ruby truthiness: everything but `nil` and `false`. */
  predicate Truthy(v: Value) {
    !(v.Nil? || v == Bool(false))
  }

  /** ActiveSupport's `blank?`: nil, false, a string of white space only,
      an empty array or hash. */
  predicate Blank(v: Value) {
    match v
    case Nil => true
    case Bool(b) => !b
    case Text(s) => AllSpace(s)
    case List(items) => items == []
    case Hash(entries) => entries == []
    case Int(_) => false
    case Obj(_) => false
  }

  /** The exceptions the modelled code can raise. `NoMethod(m)` is a
      `NoMethodError` for method `m` (a missing setter `m`, a call on
      `nil`); `TypeMismatch` stands for calling a hash operation on a value
      that is not a hash; `OAuth2` is `OAuth2::Error` for an error reply
      with its status and the `message` of its body; `Transport` is any
      other failure of the connection. */
  datatype RubyError =
    | NoMethod(name: string)
    | TypeMismatch
    | OAuth2(status: int, message: string)
    | Transport

  /** The result of a Ruby expression: a value, or an exception raised. */
  datatype Outcome<+T> = Ok(value: T) | Raised(error: RubyError)

  /** The result of a Ruby statement whose value is not used. */
  datatype Status = Done | Failed(error: RubyError)

  // ---------------------------------------------------------------------
  // Instance variables
  // ---------------------------------------------------------------------

  /** An accessor's reading: `nil` for an instance variable never set. */
  function Get(ivars: map<string, Value>, f: string): Value {
    if f in ivars then ivars[f] else Nil
  }

  function Find(ivars: map<string, Value>, f: string): Option<Value> {
    if f in ivars then Some(ivars[f]) else None
  }

  // ---------------------------------------------------------------------
  // Hydration: ApiObject#attributes=
  // ---------------------------------------------------------------------

  /** What `values.each {|k, v| send("#{k}=", v) }` leaves: the instance
      variables, and the first key without a setter if one stopped it. */
  datatype Assignment = Assignment(ivars: map<string, Value>, unknown: Option<Key>)

  /** The exception raised for a key without a setter. */
  function SetterError(k: Key): RubyError {
    NoMethod(k.name + "=")
  }

  /** The keys of `entries`, left to right, assigned to an instance of
      `cls` whose instance variables are `ivars`. */
  function Assign(cls: Class, ivars: map<string, Value>, entries: Pairs): Assignment
    decreases |entries|
  {
    if entries == [] then Assignment(ivars, None)
    else if entries[0].0.name !in Settable(cls) then Assignment(ivars, Some(entries[0].0))
    else Assign(cls, ivars[entries[0].0.name := entries[0].1], entries[1..])
  }

  /** Every key of `entries` has a setter on `cls`. */
  predicate AllSettable(cls: Class, entries: Pairs) {
    forall i :: 0 <= i < |entries| ==> entries[i].0.name in Settable(cls)
  }

  /** The value of the last entry whose key names `f`, a symbol or a
      string: the value that survives when the entries are applied in
      order. */
  function LastValue(entries: Pairs, f: string): Option<Value>
    decreases |entries|
  {
    if entries == [] then None
    else if entries[|entries| - 1].0.name == f then Some(entries[|entries| - 1].1)
    else LastValue(entries[..|entries| - 1], f)
  }

  lemma {:induction false} LastValueCons(entries: Pairs, f: string)
    requires entries != []
    ensures LastValue(entries, f) ==
      if LastValue(entries[1..], f).Some? then LastValue(entries[1..], f)
      else if entries[0].0.name == f then Some(entries[0].1)
      else None
    decreases |entries|
  {
    var n := |entries|;
    if n > 1 && entries[n - 1].0.name != f {
      LastValueCons(entries[..n - 1], f);
      assert entries[..n - 1][1..] == entries[1..][..n - 2];
      assert entries[..n - 1][0] == entries[0];
    }
  }

  /** When every key has a setter, hydration succeeds and each field ends
      with the value of the last entry naming it; fields no entry names
      keep their value. */
  lemma {:induction false} AssignLastWrite(cls: Class, ivars: map<string, Value>, entries: Pairs)
    requires AllSettable(cls, entries)
    ensures Assign(cls, ivars, entries).unknown == None
    ensures forall f :: Find(Assign(cls, ivars, entries).ivars, f) ==
                        if LastValue(entries, f).Some? then LastValue(entries, f) else Find(ivars, f)
    decreases |entries|
  {
    if entries != [] {
      var next := ivars[entries[0].0.name := entries[0].1];
      assert AllSettable(cls, entries[1..]) by {
        forall i | 0 <= i < |entries[1..]| ensures entries[1..][i].0.name in Settable(cls) {
          assert entries[1..][i] == entries[i + 1];
        }
      }
      AssignLastWrite(cls, next, entries[1..]);
      forall f ensures Find(Assign(cls, ivars, entries).ivars, f) ==
        if LastValue(entries, f).Some? then LastValue(entries, f) else Find(ivars, f)
      {
        LastValueCons(entries, f);
      }
    }
  }

  /** The first key without a setter raises: the keys before it stay
      assigned (as if the hash had ended there) and none after it is. */
  lemma {:induction false} AssignStopsAtUnknown(cls: Class, ivars: map<string, Value>, entries: Pairs, j: nat)
    requires j < |entries| && entries[j].0.name !in Settable(cls)
    requires AllSettable(cls, entries[..j])
    ensures Assign(cls, ivars, entries) ==
      Assignment(Assign(cls, ivars, entries[..j]).ivars, Some(entries[j].0))
    ensures Assign(cls, ivars, entries[..j]).unknown == None
    decreases j
  {
    AssignLastWrite(cls, ivars, entries[..j]);
    if j > 0 {
      var next := ivars[entries[0].0.name := entries[0].1];
      assert entries[0] == entries[..j][0];
      var tail := entries[1..][..j - 1];
      assert tail == entries[..j][1..];
      assert AllSettable(cls, tail) by {
        forall i | 0 <= i < j - 1 ensures tail[i].0.name in Settable(cls) {
          assert tail[i] == entries[..j][i + 1];
        }
      }
      AssignStopsAtUnknown(cls, next, entries[1..], j - 1);
    }
  }

  /** Hydration only ever sets fields that have a setter. */
  lemma {:induction false} AssignOnlySettable(cls: Class, ivars: map<string, Value>, entries: Pairs)
    ensures Assign(cls, ivars, entries).ivars.Keys <= ivars.Keys + Settable(cls)
    ensures Assign(cls, ivars, entries).unknown.Some? ==> Assign(cls, ivars, entries).unknown.value.name !in Settable(cls)
    decreases |entries|
  {
    if entries != [] && entries[0].0.name in Settable(cls) {
      AssignOnlySettable(cls, ivars[entries[0].0.name := entries[0].1], entries[1..]);
    }
  }

  // ---------------------------------------------------------------------
  // Serialisation: to_hash
  // ---------------------------------------------------------------------

  /** `ApiObject#to_hash`: each registered field of `cls`, in declaration
      order, under its symbol, with the accessor's reading. */
  function FieldsHash(cls: Class, ivars: map<string, Value>): Pairs {
    var reg := Registry(cls);
    seq(|reg|, i requires 0 <= i < |reg| => (Sym(reg[i]), Get(ivars, reg[i])))
  }

  /** The hash built from the registry has no repeated key and holds
      exactly the registered fields, each with its current value. */
  lemma FieldsHashShape(cls: Class, ivars: map<string, Value>)
    ensures UniqueKeys(FieldsHash(cls, ivars))
    ensures forall k :: Lookup(FieldsHash(cls, ivars), k) ==
                        if k.Sym? && k.name in Registry(cls) then Some(Get(ivars, k.name)) else None
  {
    var reg := Registry(cls);
    var h := FieldsHash(cls, ivars);
    forall k ensures Lookup(h, k) == if k.Sym? && k.name in reg then Some(Get(ivars, k.name)) else None {
      if k.Sym? && k.name in reg {
        var i :| 0 <= i < |reg| && reg[i] == k.name;
        LookupAt(h, i);
      } else {
        assert forall i :: 0 <= i < |h| ==> Keys(h)[i] != k;
      }
    }
  }

  /** The fields `Provider#to_hash` moves under `user_attributes`. */
  const UserFields: seq<string> := ["first_name", "last_name", "email"]

  /** `h` after `h.delete(n)` for each name in turn. */
  function DropKeys(h: Pairs, names: seq<string>): Pairs
    decreases |names|
  {
    if names == [] then h else Without(DropKeys(h, names[..|names| - 1]), Sym(names[|names| - 1]))
  }

  lemma {:induction false} DropKeysLookup(h: Pairs, names: seq<string>)
    ensures forall k :: Lookup(DropKeys(h, names), k) == if k.Sym? && k.name in names then None else Lookup(h, k)
    ensures UniqueKeys(h) ==> UniqueKeys(DropKeys(h, names))
    decreases |names|
  {
    if names != [] {
      var init := names[..|names| - 1];
      DropKeysLookup(h, init);
      WithoutKeys(DropKeys(h, init), Sym(names[|names| - 1]));
      assert forall n :: n in names <==> n in init || n == names[|names| - 1];
    }
  }

  /** The `user_attributes` hash: the non-blank values of `names` in `h`,
      in the order of `names`. */
  function UserAttributes(h: Pairs, names: seq<string>): Pairs
    decreases |names|
  {
    if names == [] then []
    else
      var f := names[|names| - 1];
      var v := Lookup(h, Sym(f)).GetOr(Nil);
      UserAttributes(h, names[..|names| - 1]) + if Blank(v) then [] else [(Sym(f), v)]
  }

  /** `user_attributes` holds a field exactly when it is one of `names` and
      its value is not blank, and then with that value. */
  lemma {:induction false} UserAttributesLookup(h: Pairs, names: seq<string>)
    requires forall i, j :: 0 <= i < j < |names| ==> names[i] != names[j]
    ensures UniqueKeys(UserAttributes(h, names))
    ensures forall k :: Lookup(UserAttributes(h, names), k) ==
                        if k.Sym? && k.name in names && !Blank(Lookup(h, k).GetOr(Nil)) then Lookup(h, k) else None
    decreases |names|
  {
    if names != [] {
      var init := names[..|names| - 1];
      var f := names[|names| - 1];
      var v := Lookup(h, Sym(f)).GetOr(Nil);
      var a := UserAttributes(h, init);
      var b: Pairs := if Blank(v) then [] else [(Sym(f), v)];
      UserAttributesLookup(h, init);
      assert forall n :: n in names <==> n in init || n == f;
      forall k ensures Lookup(a + b, k) ==
        if k.Sym? && k.name in names && !Blank(Lookup(h, k).GetOr(Nil)) then Lookup(h, k) else None
      {
        LookupAppend(a, b, k);
      }
      if !Blank(v) {
        assert f !in init;
        assert Lookup(a, Sym(f)) == None;
        UniqueSnoc(a, (Sym(f), v));
      } else {
        assert a + b == a;
      }
    }
  }

  /** `Provider#to_hash` applied to the hash `ApiObject#to_hash` built. */
  function NestUserAttributes(h: Pairs): Pairs {
    Store(DropKeys(h, UserFields), Sym("user_attributes"), Hash(UserAttributes(h, UserFields)))
  }

  /** `to_hash` as the class of the receiver resolves it: `Provider` nests
      the user fields, persistent classes drop `id`, and the rest use
      `ApiObject#to_hash`. */
  function Serialize(cls: Class, ivars: map<string, Value>): Pairs {
    var h := FieldsHash(cls, ivars);
    if IsA(cls, Provider) then NestUserAttributes(h)
    else if IsPersistent(cls) then Without(h, Sym("id"))
    else h
  }

  /** Outside `Provider`, serialisation gives exactly the class's own
      registered fields with their current values (`nil` if unset), minus
      `id` for a persistent class; inherited fields are not serialised.
      When no `id` is dropped the fields come in declaration order. */
  lemma SerializeOwnFields(cls: Class, ivars: map<string, Value>)
    requires !IsA(cls, Provider)
    ensures UniqueKeys(Serialize(cls, ivars))
    ensures forall k :: Lookup(Serialize(cls, ivars), k) ==
                        if k.Sym? && k.name in Registry(cls) && !(IsPersistent(cls) && k.name == "id")
                        then Some(Get(ivars, k.name)) else None
    ensures !IsPersistent(cls) || "id" !in Registry(cls) ==>
              |Serialize(cls, ivars)| == |Registry(cls)| &&
              forall i :: 0 <= i < |Registry(cls)| ==>
                Serialize(cls, ivars)[i] == (Sym(Registry(cls)[i]), Get(ivars, Registry(cls)[i]))
  {
    var h := FieldsHash(cls, ivars);
    FieldsHashShape(cls, ivars);
    if IsPersistent(cls) {
      WithoutKeys(h, Sym("id"));
      if "id" !in Registry(cls) {
        assert !HasKey(h, Sym("id")) by {
          assert Lookup(h, Sym("id")) == None;
        }
        WithoutAbsent(h, Sym("id"));
      }
    }
  }

  /** A Patient serialises its five fields and never `id`, even once it has
      been given one. */
  lemma PatientSerialization(ivars: map<string, Value>)
    ensures Keys(Serialize(Patient, ivars)) ==
            [Sym("first_name"), Sym("last_name"), Sym("email"), Sym("is_connected"), Sym("external_id")]
    ensures !HasKey(Serialize(Patient, ivars), Sym("id"))
  {
    var reg := Registry(Patient);
    assert "id" !in reg;
    SerializeOwnFields(Patient, ivars);
    var h := Serialize(Patient, ivars);
    assert Lookup(h, Sym("id")) == None;
    assert Keys(h) == [Sym(reg[0]), Sym(reg[1]), Sym(reg[2]), Sym(reg[3]), Sym(reg[4])];
  }

  /** What nesting does to any hash: `user_attributes` is set, the user
      fields are removed, and every other key keeps its value. */
  lemma NestUserAttributesShape(h: Pairs)
    requires UniqueKeys(h)
    ensures UniqueKeys(NestUserAttributes(h))
    ensures forall k :: Lookup(NestUserAttributes(h), k) ==
                        if k == Sym("user_attributes") then Some(Hash(UserAttributes(h, UserFields)))
                        else if k.Sym? && k.name in UserFields then None
                        else Lookup(h, k)
  {
    DropKeysLookup(h, UserFields);
    StoreKeys(DropKeys(h, UserFields), Sym("user_attributes"), Hash(UserAttributes(h, UserFields)));
  }

  /** `Provider#to_hash`: the three user fields are gone from the top
      level; `user_attributes` is always present (see
      `ProviderUserAttributes` for what it holds). */
  lemma ProviderSerialization(cls: Class, ivars: map<string, Value>)
    requires IsA(cls, Provider)
    ensures UniqueKeys(Serialize(cls, ivars))
    ensures forall f :: f in UserFields ==> !HasKey(Serialize(cls, ivars), Sym(f))
    ensures Lookup(Serialize(cls, ivars), Sym("user_attributes")) ==
            Some(Hash(UserAttributes(FieldsHash(cls, ivars), UserFields)))
  {
    FieldsHashShape(cls, ivars);
    NestedUserFields(FieldsHash(cls, ivars));
    assert Serialize(cls, ivars) == NestUserAttributes(FieldsHash(cls, ivars));
  }

  lemma UserAttributesKeyIsNoUserField()
    ensures "user_attributes" !in UserFields
  {
    assert |"user_attributes"| == 15;
  }

  lemma NestedUserFields(h: Pairs)
    requires UniqueKeys(h)
    ensures UniqueKeys(NestUserAttributes(h))
    ensures forall f :: f in UserFields ==> !HasKey(NestUserAttributes(h), Sym(f))
    ensures Lookup(NestUserAttributes(h), Sym("user_attributes")) == Some(Hash(UserAttributes(h, UserFields)))
  {
    NestUserAttributesShape(h);
    UserAttributesKeyIsNoUserField();
    forall f | f in UserFields ensures !HasKey(NestUserAttributes(h), Sym(f)) {
      assert Sym(f) != Sym("user_attributes");
      assert Lookup(NestUserAttributes(h), Sym(f)) == None;
    }
  }

  /** The fields `Provider#to_hash` does not nest keep their values. */
  lemma ProviderOtherFields(cls: Class, ivars: map<string, Value>)
    requires IsA(cls, Provider)
    ensures forall k :: k != Sym("user_attributes") && !(k.Sym? && k.name in UserFields) ==>
                        Lookup(Serialize(cls, ivars), k) ==
                        if k.Sym? && k.name in Registry(cls) then Some(Get(ivars, k.name)) else None
  {
    var h := FieldsHash(cls, ivars);
    assert Serialize(cls, ivars) == NestUserAttributes(h);
    FieldsHashShape(cls, ivars);
    NestUserAttributesShape(h);
  }

  /** The hash nested under `user_attributes` by `Provider#to_hash`: the
      user fields whose values are not blank, with those values. */
  lemma ProviderUserAttributes(cls: Class, ivars: map<string, Value>)
    requires IsA(cls, Provider)
    ensures var ua := UserAttributes(FieldsHash(cls, ivars), UserFields);
            UniqueKeys(ua) &&
            forall k :: Lookup(ua, k) ==
                        if k.Sym? && k.name in UserFields && !Blank(Get(ivars, k.name))
                        then Some(Get(ivars, k.name)) else None
  {
    var h := FieldsHash(cls, ivars);
    FieldsHashShape(cls, ivars);
    UserAttributesLookup(h, UserFields);
    Subclasses(cls);
    assert forall f :: f in UserFields ==> f in Registry(Provider);
  }

  // ---------------------------------------------------------------------
  // Patient#attributes= and Prescription#attributes=
  // ---------------------------------------------------------------------

  /** The alias keys `Patient#attributes=` folds into `is_connected`, in
      the order it deletes them. */
  const ConnectedAliases: seq<Key> := [Sym("is_connected?"), Str("is_connected?")]

  /** One round of the alias loop: delete `k`; a truthy value deleted is
      stored under `:is_connected`. */
  function NormaliseStep(h: Pairs, k: Key): Pairs {
    var v := Lookup(h, k);
    var rest := Without(h, k);
    if v.Some? && Truthy(v.value) then Store(rest, Sym("is_connected"), v.value) else rest
  }

  /** The caller's hash after the alias loop has handled `aliases`. */
  function Normalise(h: Pairs, aliases: seq<Key>): Pairs
    decreases |aliases|
  {
    if aliases == [] then h
    else NormaliseStep(Normalise(h, aliases[..|aliases| - 1]), aliases[|aliases| - 1])
  }

  function NormaliseConnected(h: Pairs): Pairs {
    Normalise(h, ConnectedAliases)
  }

  lemma NormaliseStepShape(h: Pairs, k: Key)
    requires k != Sym("is_connected")
    ensures !HasKey(NormaliseStep(h, k), k)
    ensures Lookup(NormaliseStep(h, k), Sym("is_connected")) ==
            if Lookup(h, k).Some? && Truthy(Lookup(h, k).value) then Lookup(h, k)
            else Lookup(h, Sym("is_connected"))
    ensures forall j :: j != k && j != Sym("is_connected") ==> Lookup(NormaliseStep(h, k), j) == Lookup(h, j)
    ensures UniqueKeys(h) ==> UniqueKeys(NormaliseStep(h, k))
  {
    var v := Lookup(h, k);
    WithoutKeys(h, k);
    if v.Some? && Truthy(v.value) {
      StoreKeys(Without(h, k), Sym("is_connected"), v.value);
    }
  }

  /** `Patient#attributes=` empties the caller's hash of both alias keys; a
      truthy value under one of them ends under `:is_connected` (the string
      alias, handled last, wins), overriding an explicit `:is_connected`;
      a nil or false value is dropped; nothing else changes. */
  lemma ConnectedNormalisation(h: Pairs)
    ensures !HasKey(NormaliseConnected(h), Sym("is_connected?"))
    ensures !HasKey(NormaliseConnected(h), Str("is_connected?"))
    ensures Lookup(NormaliseConnected(h), Sym("is_connected")) ==
            var a := Lookup(h, Sym("is_connected?"));
            var b := Lookup(h, Str("is_connected?"));
            if b.Some? && Truthy(b.value) then b
            else if a.Some? && Truthy(a.value) then a
            else Lookup(h, Sym("is_connected"))
    ensures forall k :: k != Sym("is_connected?") && k != Str("is_connected?") && k != Sym("is_connected") ==>
                        Lookup(NormaliseConnected(h), k) == Lookup(h, k)
    ensures UniqueKeys(h) ==> UniqueKeys(NormaliseConnected(h))
  {
    NormaliseConnectedUnfold(h);
    ConnectedRounds(h);
  }

  lemma ConnectedRounds(h: Pairs)
    ensures !HasKey(NormaliseStep(NormaliseStep(h, Sym("is_connected?")), Str("is_connected?")), Sym("is_connected?"))
    ensures !HasKey(NormaliseStep(NormaliseStep(h, Sym("is_connected?")), Str("is_connected?")), Str("is_connected?"))
    ensures Lookup(NormaliseStep(NormaliseStep(h, Sym("is_connected?")), Str("is_connected?")), Sym("is_connected")) ==
            var a := Lookup(h, Sym("is_connected?"));
            var b := Lookup(h, Str("is_connected?"));
            if b.Some? && Truthy(b.value) then b
            else if a.Some? && Truthy(a.value) then a
            else Lookup(h, Sym("is_connected"))
    ensures forall k :: k != Sym("is_connected?") && k != Str("is_connected?") && k != Sym("is_connected") ==>
                        Lookup(NormaliseStep(NormaliseStep(h, Sym("is_connected?")), Str("is_connected?")), k) == Lookup(h, k)
    ensures UniqueKeys(h) ==> UniqueKeys(NormaliseStep(NormaliseStep(h, Sym("is_connected?")), Str("is_connected?")))
  {
    var h1 := NormaliseStep(h, Sym("is_connected?"));
    NormaliseStepShape(h, Sym("is_connected?"));
    NormaliseStepShape(h1, Str("is_connected?"));
    var h2 := NormaliseStep(h1, Str("is_connected?"));
    assert Lookup(h2, Sym("is_connected?")) == Lookup(h1, Sym("is_connected?")) == None;
  }

  /** The alias loop is the symbol round followed by the string round. */
  lemma NormaliseConnectedUnfold(h: Pairs)
    ensures NormaliseConnected(h) == NormaliseStep(NormaliseStep(h, Sym("is_connected?")), Str("is_connected?"))
  {
    var a := ConnectedAliases;
    assert a[..1] == [Sym("is_connected?")];
    assert a[..1][..0] == [];
    assert Normalise(h, a[..1]) == NormaliseStep(h, Sym("is_connected?"));
  }

  /** `values.delete(:workout) || values.delete("workout")` on a copy of
      the hash: the hash left and the workout value (`nil` if none). When
      `:workout` holds a truthy value the string key is not looked at. */
  function ExtractWorkout(h: Pairs): (Pairs, Value) {
    var first := Lookup(h, Sym("workout")).GetOr(Nil);
    var rest := Without(h, Sym("workout"));
    if Truthy(first) then (rest, first)
    else (Without(rest, Str("workout")), Lookup(rest, Str("workout")).GetOr(Nil))
  }

  /** The workout value is taken from `:workout` when that is truthy and
      otherwise from `"workout"`; the keys it came from are gone from the
      rest, and every other entry stays. */
  lemma ExtractWorkoutShape(h: Pairs)
    ensures var (rest, w) := ExtractWorkout(h);
            var first := Lookup(h, Sym("workout")).GetOr(Nil);
            && w == (if Truthy(first) then first else Lookup(h, Str("workout")).GetOr(Nil))
            && !HasKey(rest, Sym("workout"))
            && (!Truthy(first) ==> !HasKey(rest, Str("workout")))
            && (Truthy(first) ==> Lookup(rest, Str("workout")) == Lookup(h, Str("workout")))
            && (forall k: Key :: k.name != "workout" ==> Lookup(rest, k) == Lookup(h, k))
            && (UniqueKeys(h) ==> UniqueKeys(rest))
  {
    var rest := Without(h, Sym("workout"));
    WithoutKeys(h, Sym("workout"));
    WithoutKeys(rest, Str("workout"));
  }

  // ---------------------------------------------------------------------
  // Hydration as each class resolves `attributes=`
  // ---------------------------------------------------------------------

  /** The outcome of `attributes=`: the instance variables left behind,
      the exception raised if any, and, for a Prescription, the fields of
      the Workout it built and stored under `workout`. */
  datatype Hydration = Hydration(ivars: map<string, Value>, error: Option<RubyError>, workout: Option<map<string, Value>>)

  function Finish(a: Assignment): Hydration {
    Hydration(a.ivars, if a.unknown.Some? then Some(SetterError(a.unknown.value)) else None, None)
  }

  /** `attributes = h` on an instance of `cls` with instance variables
      `ivars`. */
  function Hydrate(cls: Class, ivars: map<string, Value>, h: Pairs): (r: Hydration)
    ensures r.error.Some? ==> r.error.value == TypeMismatch || r.error.value.NoMethod?
  {
    if IsA(cls, Patient) then Finish(Assign(cls, ivars, NormaliseConnected(h)))
    else if IsA(cls, Prescription) then
      var (rest, w) := ExtractWorkout(h);
      var a := Assign(cls, ivars, rest);
      if a.unknown.Some? then Finish(a) else AttachWorkout(a.ivars, w)
    else Finish(Assign(cls, ivars, h))
  }

  /** `self.workout = Workout.new workout_hash if workout_hash`, once the
      other fields have given `ivars`: a truthy workout value must be a
      hash that a new Workout accepts. */
  function AttachWorkout(ivars: map<string, Value>, w: Value): (r: Hydration)
    ensures r.ivars == ivars
    ensures r.error.Some? ==> r.error.value == TypeMismatch || r.error.value.NoMethod?
  {
    if !Truthy(w) then Hydration(ivars, None, None)
    else if !w.Hash? then Hydration(ivars, Some(TypeMismatch), None)
    else
      var nested := Assign(Workout, map[], w.entries);
      if nested.unknown.Some? then Hydration(ivars, Some(SetterError(nested.unknown.value)), None)
      else Hydration(ivars, None, Some(nested.ivars))
  }

  /** `cls.new(v)`: hydration of a fresh instance; a value that is not a
      hash cannot be iterated as one. */
  function Construct(cls: Class, v: Value): Hydration {
    if v.Hash? then Hydrate(cls, map[], v.entries) else Hydration(map[], Some(TypeMismatch), None)
  }

  /** Every key has exactly one spelling in `m`: a symbol naming a
      registered field of `cls`, every such field present. */
  ghost predicate KeysAreRegistry(cls: Class, m: Pairs) {
    forall k :: HasKey(m, k) <==> k.Sym? && k.name in Registry(cls)
  }

  /** In a hash whose keys are its class's registered fields and nothing
      else, hydration sets exactly the fields named by the hash. */
  lemma HydrateRegistryKeys(cls: Class, e: Pairs)
    requires UniqueKeys(e)
    requires forall k :: HasKey(e, k) ==> k.Sym? && k.name in Registry(cls)
    ensures Assign(cls, map[], e).unknown == None
    ensures forall f :: Find(Assign(cls, map[], e).ivars, f) == Lookup(e, Sym(f))
  {
    forall i | 0 <= i < |e| ensures e[i].0.Sym? && e[i].0.name in Settable(cls) {
      assert Keys(e)[i] == e[i].0;
    }
    AssignLastWrite(cls, map[], e);
    forall f ensures Find(Assign(cls, map[], e).ivars, f) == Lookup(e, Sym(f)) {
      LastValueOfKey(e, Sym(f));
    }
  }

  /** A hash without alias keys passes the alias loop unchanged. */
  lemma NormaliseWithoutAliases(m: Pairs)
    requires !HasKey(m, Sym("is_connected?")) && !HasKey(m, Str("is_connected?"))
    ensures NormaliseConnected(m) == m
  {
    NormaliseConnectedUnfold(m);
    WithoutAbsent(m, Sym("is_connected?"));
    WithoutAbsent(m, Str("is_connected?"));
    assert NormaliseStep(m, Sym("is_connected?")) == m;
  }

  /** A nil `:workout` with no `"workout"` beside it: the rest is the hash
      without `:workout`, and there is no workout. */
  lemma ExtractNilWorkout(m: Pairs)
    requires Lookup(m, Sym("workout")) == Some(Nil) && !HasKey(m, Str("workout"))
    ensures ExtractWorkout(m) == (Without(m, Sym("workout")), Nil)
  {
    var rest := Without(m, Sym("workout"));
    assert Lookup(rest, Str("workout")) == None;
    WithoutAbsent(rest, Str("workout"));
  }

  /** The round trip once the entries actually assigned are known: all of
      `m`, or all but a nil `:workout`. */
  lemma RoundTripOfEntries(cls: Class, m: Pairs, e: Pairs)
    requires cls != Provider && cls != ApiPersistentObject
    requires UniqueKeys(m) && KeysAreRegistry(cls, m)
    requires e == m || (Lookup(m, Sym("workout")) == Some(Nil) && e == Without(m, Sym("workout")))
    ensures Assign(cls, map[], e).unknown == None
    ensures SameHash(Serialize(cls, Assign(cls, map[], e).ivars), m)
  {
    WithoutKeys(m, Sym("workout"));
    forall k | HasKey(e, k) ensures k.Sym? && k.name in Registry(cls) {
      assert HasKey(m, k);
    }
    HydrateRegistryKeys(cls, e);
    var iv := Assign(cls, map[], e).ivars;
    SerializeOwnFields(cls, iv);
    Subclasses(cls);
    PatientIdIsInherited();
    SameLookups(Serialize(cls, iv), iv, m, e, Registry(cls));
  }

  /** The lookup-by-lookup step of the round trip: a serialisation that
      reads the fields `reg` of `iv`, where `iv` came from the entries `e`
      of `m`, finds what `m` holds. */
  lemma SameLookups(ser: Pairs, iv: map<string, Value>, m: Pairs, e: Pairs, reg: seq<string>)
    requires forall k :: Lookup(ser, k) == if k.Sym? && k.name in reg then Some(Get(iv, k.name)) else None
    requires forall f :: Find(iv, f) == Lookup(e, Sym(f))
    requires forall k :: HasKey(m, k) <==> k.Sym? && k.name in reg
    requires e == m || (Lookup(m, Sym("workout")) == Some(Nil) && e == Without(m, Sym("workout")))
    ensures forall k :: Lookup(ser, k) == Lookup(m, k)
  {
    forall k ensures Lookup(ser, k) == Lookup(m, k) {
      if k.Sym? && k.name in reg {
        var v := Lookup(m, k).value;
        if e != m && k.name == "workout" {
          assert Find(iv, "workout") == None;
        } else {
          assert Find(iv, k.name) == Some(v);
        }
      }
    }
  }

  /** Mapping -> object -> mapping: a hash holding exactly the registered
      fields of a class that neither nests nor drops fields comes back
      from `to_hash(new(m))` equal to `m` as a Ruby hash. For a
      Prescription, `workout` must be nil: a workout becomes an object. */
  lemma RoundTrip(cls: Class, m: Pairs)
    requires cls in {Office, Workout, PrescribeRedirect, Patient, Prescription}
    requires UniqueKeys(m) && KeysAreRegistry(cls, m)
    requires cls == Prescription ==> Lookup(m, Sym("workout")) == Some(Nil)
    ensures Hydrate(cls, map[], m).error == None
    ensures Hydrate(cls, map[], m).workout == None
    ensures SameHash(Serialize(cls, Hydrate(cls, map[], m).ivars), m)
  {
    if cls == Patient {
      assert !HasKey(m, Sym("is_connected?")) && !HasKey(m, Str("is_connected?"));
      NormaliseWithoutAliases(m);
      RoundTripOfEntries(cls, m, m);
      assert Hydrate(cls, map[], m) == Finish(Assign(cls, map[], m));
    } else if cls == Prescription {
      assert !HasKey(m, Str("workout"));
      ExtractNilWorkout(m);
      var e := Without(m, Sym("workout"));
      RoundTripOfEntries(cls, m, e);
      assert Hydrate(cls, map[], m) == Finish(Assign(cls, map[], e));
    } else {
      assert !IsA(cls, Patient) && !IsA(cls, Prescription);
      RoundTripOfEntries(cls, m, m);
      assert Hydrate(cls, map[], m) == Finish(Assign(cls, map[], m));
    }
  }

  /** What `to_hash` gives outside `Provider`, for the classes whose
      whole registry it emits: unique symbol keys, each naming a
      registered field, and every registered field with its reading. */
  lemma SerialisedKeys(cls: Class, iv: map<string, Value>)
    requires cls in {Office, Workout, PrescribeRedirect, Patient, Prescription}
    ensures UniqueKeys(Serialize(cls, iv))
    ensures forall k :: HasKey(Serialize(cls, iv), k) ==> k.Sym? && k.name in Registry(cls)
    ensures forall f :: f in Registry(cls) ==> Lookup(Serialize(cls, iv), Sym(f)) == Some(Get(iv, f))
  {
    Subclasses(cls);
    SerializeOwnFields(cls, iv);
    forall k | HasKey(Serialize(cls, iv), k) ensures k.Sym? && k.name in Registry(cls) {
      assert Lookup(Serialize(cls, iv), k).Some?;
    }
  }

  /** Object -> mapping -> object: an entity re-hydrated from its own
      `to_hash` reads every registered field as before. A Prescription's
      workout must be falsy (`nil` or `false`), and comes back `nil`:
      hydration takes `workout` out of the hash and stores only a Workout
      built from a truthy value. */
  lemma ObjectRoundTrip(cls: Class, iv: map<string, Value>)
    requires cls in {Office, Workout, PrescribeRedirect, Patient, Prescription}
    requires cls == Prescription ==> !Truthy(Get(iv, "workout"))
    ensures Hydrate(cls, map[], Serialize(cls, iv)).error == None
    ensures forall f :: f in Registry(cls) ==>
              Get(Hydrate(cls, map[], Serialize(cls, iv)).ivars, f) ==
              if cls == Prescription && f == "workout" then Nil else Get(iv, f)
  {
    if cls == Prescription {
      PrescriptionObjectRoundTrip(iv);
    } else if cls == Patient {
      PatientObjectRoundTrip(iv);
    } else {
      PlainObjectRoundTrip(cls, iv);
    }
  }

  lemma PlainObjectRoundTrip(cls: Class, iv: map<string, Value>)
    requires cls in {Office, Workout, PrescribeRedirect}
    ensures Hydrate(cls, map[], Serialize(cls, iv)).error == None
    ensures forall f :: f in Registry(cls) ==> Get(Hydrate(cls, map[], Serialize(cls, iv)).ivars, f) == Get(iv, f)
  {
    var h := Serialize(cls, iv);
    SerialisedKeys(cls, iv);
    AssignSerialised(cls, iv, h, set f | f in Registry(cls));
    Subclasses(cls);
    assert Hydrate(cls, map[], h) == Finish(Assign(cls, map[], h));
  }

  /** Hydrating a fresh instance from a hash of registered symbol keys
      that holds the readings of `iv` for the fields `fs` reads back those
      fields. */
  lemma AssignSerialised(cls: Class, iv: map<string, Value>, h: Pairs, fs: set<string>)
    requires UniqueKeys(h) && forall k :: HasKey(h, k) ==> k.Sym? && k.name in Registry(cls)
    requires forall f :: f in fs ==> Lookup(h, Sym(f)) == Some(Get(iv, f))
    ensures Assign(cls, map[], h).unknown == None
    ensures forall f :: f in fs ==> Get(Assign(cls, map[], h).ivars, f) == Get(iv, f)
  {
    HydrateRegistryKeys(cls, h);
    forall f | f in fs ensures Get(Assign(cls, map[], h).ivars, f) == Get(iv, f) {
      assert Find(Assign(cls, map[], h).ivars, f) == Some(Get(iv, f));
    }
  }

  lemma PatientObjectRoundTrip(iv: map<string, Value>)
    ensures Hydrate(Patient, map[], Serialize(Patient, iv)).error == None
    ensures forall f :: f in Registry(Patient) ==> Get(Hydrate(Patient, map[], Serialize(Patient, iv)).ivars, f) == Get(iv, f)
  {
    var h := Serialize(Patient, iv);
    SerialisedKeys(Patient, iv);
    assert !HasKey(h, Sym("is_connected?")) && !HasKey(h, Str("is_connected?"));
    NormaliseWithoutAliases(h);
    HydrateRegistryKeys(Patient, h);
    assert Hydrate(Patient, map[], h) == Finish(Assign(Patient, map[], h));
  }

  lemma PrescriptionObjectRoundTrip(iv: map<string, Value>)
    requires !Truthy(Get(iv, "workout"))
    ensures Hydrate(Prescription, map[], Serialize(Prescription, iv)).error == None
    ensures forall f :: f in Registry(Prescription) ==>
              Get(Hydrate(Prescription, map[], Serialize(Prescription, iv)).ivars, f) ==
              if f == "workout" then Nil else Get(iv, f)
  {
    var h := Serialize(Prescription, iv);
    SerialisedKeys(Prescription, iv);
    var rest := Without(h, Sym("workout"));
    WithoutKeys(h, Sym("workout"));
    assert !HasKey(rest, Str("workout"));
    WithoutAbsent(rest, Str("workout"));
    assert ExtractWorkout(h) == (rest, Nil);
    HydrateRegistryKeys(Prescription, rest);
    assert Hydrate(Prescription, map[], h) == Hydration(Assign(Prescription, map[], rest).ivars, None, None);
  }

  /** A Prescription holding a Workout object, or any other truthy value
      that is not a hash, under `workout` does not survive the round trip:
      `to_hash` emits the value itself, and re-hydrating raises because
      `Workout.new` cannot iterate it. */
  lemma WorkoutObjectBreaksRoundTrip(iv: map<string, Value>)
    requires Truthy(Get(iv, "workout")) && !Get(iv, "workout").Hash?
    ensures Hydrate(Prescription, map[], Serialize(Prescription, iv)).error == Some(TypeMismatch)
  {
    var h := Serialize(Prescription, iv);
    SerialisedKeys(Prescription, iv);
    var rest := Without(h, Sym("workout"));
    WithoutKeys(h, Sym("workout"));
    HydrateRegistryKeys(Prescription, rest);
    assert ExtractWorkout(h) == (rest, Get(iv, "workout"));
  }

  /** `Provider#to_hash` is the hash without the user fields, followed by
      `user_attributes`. */
  lemma ProviderSerialisedSplit(iv: map<string, Value>)
    ensures Serialize(Provider, iv) ==
            DropKeys(FieldsHash(Provider, iv), UserFields) +
            [(Sym("user_attributes"), Hash(UserAttributes(FieldsHash(Provider, iv), UserFields)))]
  {
    var h := FieldsHash(Provider, iv);
    FieldsHashShape(Provider, iv);
    DropKeysLookup(h, UserFields);
    UserAttributesKeyIsNoUserField();
    UserAttributesUnsettable();
    assert Lookup(h, Sym("user_attributes")) == None;
  }

  /** The part of `Provider#to_hash` before `user_attributes` holds the
      registered fields outside the user fields, with their readings, and
      no other key. */
  lemma ProviderTopLevel(iv: map<string, Value>)
    ensures var d := DropKeys(FieldsHash(Provider, iv), UserFields);
            && UniqueKeys(d)
            && (forall k :: HasKey(d, k) ==> k.Sym? && k.name in Registry(Provider))
            && (forall f :: f in Registry(Provider) && f !in UserFields ==> Lookup(d, Sym(f)) == Some(Get(iv, f)))
  {
    var h := FieldsHash(Provider, iv);
    var d := DropKeys(h, UserFields);
    FieldsHashShape(Provider, iv);
    DropKeysLookup(h, UserFields);
    forall k | HasKey(d, k) ensures k.Sym? && k.name in Registry(Provider) {
      assert Lookup(d, k).Some?;
    }
  }

  lemma UserAttributesUnsettable()
    ensures "user_attributes" !in Settable(Provider)
    ensures SetterError(Sym("user_attributes")) == NoMethod("user_attributes=")
  {
    assert Settable(Provider) == set f | f in Registry(Provider);
    assert "user_attributes" + "=" == "user_attributes=";
  }

  /** A Provider has no `attributes=` of its own. */
  lemma ProviderHydration(h: Pairs)
    ensures Hydrate(Provider, map[], h) == Finish(Assign(Provider, map[], h))
  {
    Subclasses(Provider);
  }

  /** A Provider re-hydrated from its own `to_hash` raises NoMethodError
      for `user_attributes=`, the last key and the only one without a
      setter; by then every field outside the user fields has been read
      back. */
  lemma ProviderRehydrationRaises(iv: map<string, Value>)
    ensures Hydrate(Provider, map[], Serialize(Provider, iv)).error == Some(NoMethod("user_attributes="))
    ensures forall f :: f in Registry(Provider) && f !in UserFields ==>
              Get(Hydrate(Provider, map[], Serialize(Provider, iv)).ivars, f) == Get(iv, f)
  {
    var d := DropKeys(FieldsHash(Provider, iv), UserFields);
    var s := Serialize(Provider, iv);
    ProviderSerialisedSplit(iv);
    ProviderTopLevel(iv);
    assert AllSettable(Provider, d) by {
      forall i | 0 <= i < |d| ensures d[i].0.name in Settable(Provider) {
        assert Keys(d)[i] == d[i].0;
      }
    }
    UserAttributesUnsettable();
    assert s[..|d|] == d;
    assert s[|d|].0 == Sym("user_attributes");
    AssignStopsAtUnknown(Provider, map[], s, |d|);
    var others := set f | f in Registry(Provider) && f !in UserFields;
    AssignSerialised(Provider, iv, d, others);
    var r := Hydrate(Provider, map[], s);
    ProviderHydration(s);
    assert r.ivars == Assign(Provider, map[], d).ivars;
    forall f | f in Registry(Provider) && f !in UserFields ensures Get(r.ivars, f) == Get(iv, f) {
      assert f in others;
    }
  }

  /** Hydration stops at a key without a setter exactly when there is
      one. */
  lemma {:induction false} AssignSucceeds(cls: Class, ivars: map<string, Value>, entries: Pairs)
    ensures Assign(cls, ivars, entries).unknown == None <==> AllSettable(cls, entries)
    decreases |entries|
  {
    if entries != [] {
      AssignSucceeds(cls, ivars[entries[0].0.name := entries[0].1], entries[1..]);
      if AllSettable(cls, entries) {
        forall i | 0 <= i < |entries[1..]| ensures entries[1..][i].0.name in Settable(cls) {
          assert entries[1..][i] == entries[i + 1];
        }
      }
      if entries[0].0.name in Settable(cls) && AllSettable(cls, entries[1..]) {
        forall i | 0 <= i < |entries| ensures entries[i].0.name in Settable(cls) {
          if i > 0 {
            assert entries[i] == entries[1..][i - 1];
          }
        }
      }
    }
  }

  /** Where no other key has the name of `k`, the last entry naming it
      is the value stored under `k`. */
  lemma {:induction false} LastValueOfKey(m: Pairs, k: Key)
    requires UniqueKeys(m)
    requires forall i :: 0 <= i < |m| && m[i].0.name == k.name ==> m[i].0 == k
    ensures LastValue(m, k.name) == Lookup(m, k)
    decreases |m|
  {
    if m != [] {
      var n := |m|;
      var init := m[..n - 1];
      assert UniqueKeys(init);
      LastValueOfKey(init, k);
      LookupAppend(init, [m[n - 1]], k);
      assert init + [m[n - 1]] == m;
      if m[n - 1].0.name == k.name {
        assert !HasKey(init, k) by {
          forall i | 0 <= i < n - 1 ensures Keys(init)[i] != k {
            assert init[i].0 == m[i].0;
          }
        }
      } else {
        assert Lookup([m[n - 1]], k) == None;
      }
    }
  }

  predicate EndsWithConnected(h: Pairs) {
    h != [] && h[|h| - 1].0 == Sym("is_connected")
  }

  /** An alias round leaves `:is_connected` last when it was last, or when
      it was missing and the alias holds a truthy value. */
  lemma StepKeepsConnectedLast(h: Pairs, k: Key)
    requires UniqueKeys(h) && k != Sym("is_connected")
    requires EndsWithConnected(h) || (!HasKey(h, Sym("is_connected")) && Lookup(h, k).Some? && Truthy(Lookup(h, k).value))
    ensures EndsWithConnected(NormaliseStep(h, k))
  {
    var v := Lookup(h, k);
    var rest := Without(h, k);
    if EndsWithConnected(h) {
      var init, last := h[..|h| - 1], h[|h| - 1];
      assert h == init + [last];
      WithoutSnoc(init, last, k);
      assert rest == Without(init, k) + [last];
      if v.Some? && Truthy(v.value) {
        assert !HasKey(init, Sym("is_connected")) by {
          forall i | 0 <= i < |init| ensures Keys(init)[i] != Sym("is_connected") {
            assert init[i] == h[i];
          }
        }
        WithoutKeys(init, k);
        StoreLast(Without(init, k), Sym("is_connected"), last.1, v.value);
      }
    } else {
      WithoutKeys(h, k);
    }
  }

  /** When the hash has no `:is_connected` and an alias holds a truthy
      value, the normalised hash ends with `:is_connected`. */
  lemma ConnectedLast(h: Pairs)
    requires UniqueKeys(h) && !HasKey(h, Sym("is_connected"))
    requires var a := Lookup(h, Sym("is_connected?"));
             var b := Lookup(h, Str("is_connected?"));
             (a.Some? && Truthy(a.value)) || (b.Some? && Truthy(b.value))
    ensures EndsWithConnected(NormaliseConnected(h))
  {
    NormaliseConnectedUnfold(h);
    var a := Lookup(h, Sym("is_connected?"));
    var h1 := NormaliseStep(h, Sym("is_connected?"));
    NormaliseStepShape(h, Sym("is_connected?"));
    if a.Some? && Truthy(a.value) {
      StepKeepsConnectedLast(h, Sym("is_connected?"));
    } else {
      assert Lookup(h1, Sym("is_connected")) == None;
      assert Lookup(h1, Str("is_connected?")) == Lookup(h, Str("is_connected?"));
    }
    StepKeepsConnectedLast(h1, Str("is_connected?"));
  }

  /** Hydrating a Patient: a truthy value under an alias is what
      `is_connected` ends with, whatever the hash held under
      `is_connected`; a nil or false alias value is never assigned. Without
      a truthy alias the hash's own `is_connected`, symbol or string, is
      assigned. */
  lemma PatientConnectedField(ivars: map<string, Value>, h: Pairs)
    requires UniqueKeys(h) && !(HasKey(h, Sym("is_connected")) && HasKey(h, Str("is_connected")))
    requires Hydrate(Patient, ivars, h).error == None
    ensures Find(Hydrate(Patient, ivars, h).ivars, "is_connected") ==
            var a := Lookup(h, Sym("is_connected?"));
            var b := Lookup(h, Str("is_connected?"));
            if b.Some? && Truthy(b.value) then b
            else if a.Some? && Truthy(a.value) then a
            else if HasKey(h, Sym("is_connected")) then Lookup(h, Sym("is_connected"))
            else if HasKey(h, Str("is_connected")) then Lookup(h, Str("is_connected"))
            else Find(ivars, "is_connected")
  {
    var r := NormaliseConnected(h);
    var asg := Assign(Patient, ivars, r);
    assert Hydrate(Patient, ivars, h) == Finish(asg);
    AssignSucceeds(Patient, ivars, r);
    AssignFieldLastWrite(Patient, ivars, r, "is_connected");
    ConnectedLastValue(h);
  }

  /** A reply parsed from JSON has string keys: a truthy string alias
      still overrides a false `"is_connected"`. */
  lemma StringKeyedConnected(ivars: map<string, Value>)
    ensures var h := [(Str("is_connected"), Bool(false)), (Str("is_connected?"), Bool(true))];
            && Hydrate(Patient, ivars, h).error == None
            && Find(Hydrate(Patient, ivars, h).ivars, "is_connected") == Some(Bool(true))
  {
    var h := [(Str("is_connected"), Bool(false)), (Str("is_connected?"), Bool(true))];
    var r := [(Str("is_connected"), Bool(false)), (Sym("is_connected"), Bool(true))];
    StringKeyedNormalised();
    assert AllSettable(Patient, r) by {
      assert "is_connected" in Registry(Patient);
    }
    AssignSucceeds(Patient, ivars, r);
    assert Hydrate(Patient, ivars, h) == Finish(Assign(Patient, ivars, r));
    assert UniqueKeys(h) && !HasKey(h, Sym("is_connected")) by {
      assert Keys(h) == [Str("is_connected"), Str("is_connected?")];
    }
    PatientConnectedField(ivars, h);
  }

  lemma StringKeyedNormalised()
    ensures NormaliseConnected([(Str("is_connected"), Bool(false)), (Str("is_connected?"), Bool(true))]) ==
            [(Str("is_connected"), Bool(false)), (Sym("is_connected"), Bool(true))]
  {
    var h := [(Str("is_connected"), Bool(false)), (Str("is_connected?"), Bool(true))];
    assert Keys(h) == [Str("is_connected"), Str("is_connected?")];
    NormaliseConnectedUnfold(h);
    WithoutAbsent(h, Sym("is_connected?"));
    assert NormaliseStep(h, Sym("is_connected?")) == h;
    assert Without(h, Str("is_connected?")) == [(Str("is_connected"), Bool(false))];
  }

  /** `AssignLastWrite` for one field. */
  lemma AssignFieldLastWrite(cls: Class, ivars: map<string, Value>, entries: Pairs, f: string)
    requires AllSettable(cls, entries)
    ensures Find(Assign(cls, ivars, entries).ivars, f) ==
            if LastValue(entries, f).Some? then LastValue(entries, f) else Find(ivars, f)
  {
    AssignLastWrite(cls, ivars, entries);
  }

  /** The last entry of the normalised hash that names `is_connected`. */
  lemma ConnectedLastValue(h: Pairs)
    requires UniqueKeys(h) && !(HasKey(h, Sym("is_connected")) && HasKey(h, Str("is_connected")))
    ensures LastValue(NormaliseConnected(h), "is_connected") ==
            var a := Lookup(h, Sym("is_connected?"));
            var b := Lookup(h, Str("is_connected?"));
            if b.Some? && Truthy(b.value) then b
            else if a.Some? && Truthy(a.value) then a
            else if HasKey(h, Sym("is_connected")) then Lookup(h, Sym("is_connected"))
            else if HasKey(h, Str("is_connected")) then Lookup(h, Str("is_connected"))
            else None
  {
    var r := NormaliseConnected(h);
    ConnectedNormalisation(h);
    var a := Lookup(h, Sym("is_connected?"));
    var b := Lookup(h, Str("is_connected?"));
    var truthyAlias := (b.Some? && Truthy(b.value)) || (a.Some? && Truthy(a.value));
    assert Lookup(r, Str("is_connected")) == Lookup(h, Str("is_connected"));
    if !HasKey(h, Str("is_connected")) {
      OnlyKeyNamed(r, Sym("is_connected"), Str("is_connected"));
      LastValueOfKey(r, Sym("is_connected"));
    } else if !truthyAlias {
      assert Lookup(r, Sym("is_connected")) == None;
      OnlyKeyNamed(r, Str("is_connected"), Sym("is_connected"));
      LastValueOfKey(r, Str("is_connected"));
    } else {
      ConnectedLast(h);
      LookupAt(r, |r| - 1);
    }
  }

  /** In a hash without `other`, every key named like `k` (a symbol or a
      string of the same name) is `k`. */
  lemma OnlyKeyNamed(r: Pairs, k: Key, other: Key)
    requires other.name == k.name && other != k && !HasKey(r, other)
    ensures forall i :: 0 <= i < |r| && r[i].0.name == k.name ==> r[i].0 == k
  {
    forall i | 0 <= i < |r| && r[i].0.name == k.name ensures r[i].0 == k {
      assert Keys(r)[i] == r[i].0;
    }
  }

  /** The two spellings of the alias and the field itself hydrate a
      Patient alike when the value is truthy; a falsy alias value leaves
      the Patient as it was. */
  lemma ConnectedAliasSpellings(ivars: map<string, Value>, v: Value)
    ensures Truthy(v) ==>
              Hydrate(Patient, ivars, [(Sym("is_connected?"), v)]) == Hydrate(Patient, ivars, [(Sym("is_connected"), v)]) &&
              Hydrate(Patient, ivars, [(Str("is_connected?"), v)]) == Hydrate(Patient, ivars, [(Sym("is_connected"), v)])
    ensures !Truthy(v) ==>
              Hydrate(Patient, ivars, [(Sym("is_connected?"), v)]) == Hydration(ivars, None, None) &&
              Hydrate(Patient, ivars, [(Str("is_connected?"), v)]) == Hydration(ivars, None, None)
  {
    var q := [(Sym("is_connected?"), v)];
    var s := [(Str("is_connected?"), v)];
    var c := [(Sym("is_connected"), v)];
    NormaliseConnectedUnfold(q);
    NormaliseConnectedUnfold(s);
    NormaliseConnectedUnfold(c);
    assert Lookup(q, Str("is_connected?")) == None && Lookup(s, Sym("is_connected?")) == None;
    assert Lookup(c, Sym("is_connected?")) == None && Lookup(c, Str("is_connected?")) == None;
    WithoutAbsent(q, Str("is_connected?"));
    WithoutAbsent(s, Sym("is_connected?"));
    WithoutAbsent(c, Sym("is_connected?"));
    WithoutAbsent(c, Str("is_connected?"));
    assert NormaliseConnected(c) == c;
    if Truthy(v) {
      assert NormaliseStep(q, Sym("is_connected?")) == c;
      assert NormaliseConnected(q) == c;
      assert NormaliseStep(s, Str("is_connected?")) == c;
      assert NormaliseConnected(s) == c;
    } else {
      assert NormaliseConnected(q) == [];
      assert NormaliseConnected(s) == [];
    }
  }

  /** Hydrating a Prescription: the other fields are assigned from the
      hash without its workout entry; a truthy workout value must be a
      hash whose keys all have setters on `Workout`, and it becomes the
      fields of a new Workout. */
  lemma PrescriptionWorkout(ivars: map<string, Value>, h: Pairs)
    ensures var (rest, w) := ExtractWorkout(h);
            var r := Hydrate(Prescription, ivars, h);
            && r.ivars == Assign(Prescription, ivars, rest).ivars
            && (r.error == None <==>
                  AllSettable(Prescription, rest) && (Truthy(w) ==> w.Hash? && AllSettable(Workout, w.entries)))
            && (r.workout.Some? <==> r.error == None && Truthy(w))
            && (r.workout.Some? ==> r.workout.value == Assign(Workout, map[], w.entries).ivars)
  {
    var (rest, w) := ExtractWorkout(h);
    AssignSucceeds(Prescription, ivars, rest);
    if w.Hash? {
      AssignSucceeds(Workout, map[], w.entries);
    }
  }

  /** A nil or false workout value leaves the Prescription's `workout` as
      it was: neither spelling of the key reaches the setter. */
  lemma PrescriptionNoWorkout(ivars: map<string, Value>, h: Pairs)
    requires !Truthy(ExtractWorkout(h).1)
    requires Hydrate(Prescription, ivars, h).error == None
    ensures Find(Hydrate(Prescription, ivars, h).ivars, "workout") == Find(ivars, "workout")
  {
    var rest := ExtractWorkout(h).0;
    ExtractWorkoutShape(h);
    var first := Lookup(h, Sym("workout")).GetOr(Nil);
    assert !Truthy(first);
    assert !HasKey(rest, Sym("workout")) && !HasKey(rest, Str("workout"));
    assert Hydrate(Prescription, ivars, h) == Finish(Assign(Prescription, ivars, rest));
    AssignSucceeds(Prescription, ivars, rest);
    AssignLastWrite(Prescription, ivars, rest);
    forall i | 0 <= i < |rest| ensures rest[i].0.name != "workout" {
      assert Keys(rest)[i] == rest[i].0;
      assert rest[i].0 != Sym("workout") && rest[i].0 != Str("workout");
    }
    LastValueAbsent(rest, "workout");
  }

  lemma {:induction false} LastValueAbsent(m: Pairs, f: string)
    requires forall i :: 0 <= i < |m| ==> m[i].0.name != f
    ensures LastValue(m, f) == None
    decreases |m|
  {
    if m != [] {
      LastValueAbsent(m[..|m| - 1], f);
    }
  }


  // ---------------------------------------------------------------------
  // Talking to the server
  // ---------------------------------------------------------------------

  datatype Verb = HttpGet | HttpPost | HttpPut

  /** A request the client would send: the verb, the path below the
      server URL, and the parameters. */
  datatype Request = Request(verb: Verb, path: string, params: Pairs)

  /** What the server answers: a response with its parsed body, an error
      status with the `message` of its body, or no answer at all. */
  datatype Reply = Response(parsed: Value) | ErrorReply(status: int, message: string) | ConnectionFailure

  /** An OAuth2 access token, opaque to the model. */
  datatype Token = Token(source: Value)

  /** The arguments of `@client.password.get_token(username, password,
      params)`. */
  datatype Grant = Grant(username: Value, password: Value, params: Pairs)

  /** `options[:mode] || :production`, then the URL for it. */
  function ServerUrl(mode: Option<string>): (url: string)
    ensures url == LocalServerUrl <==> mode == Some("local")
    ensures url == TestServerUrl <==> mode == Some("test")
    ensures url == ProductionServerUrl <==> mode != Some("local") && mode != Some("test")
  {
    var m := mode.GetOr("production");
    if m == "local" then LocalServerUrl
    else if m == "test" then TestServerUrl
    else ProductionServerUrl
  }

  /** `path_for(*parts)`: starting from `api/v2`, each part is appended
      after a slash. */
  function PathFor(parts: seq<string>): string
    decreases |parts|
  {
    if parts == [] then "api/v" + ApiVersion
    else PathFor(parts[..|parts| - 1]) + "/" + parts[|parts| - 1]
  }

  /** The path is the version prefix and the parts joined with slashes. */
  lemma {:induction false} PathForJoin(parts: seq<string>)
    ensures PathFor(parts) == Join(["api", "v" + ApiVersion] + parts, "/")
    decreases |parts|
  {
    if parts == [] {
      assert ["api", "v" + ApiVersion] + parts == ["api", "v" + ApiVersion];
    } else {
      var init := parts[..|parts| - 1];
      PathForJoin(init);
      JoinSnoc(["api", "v" + ApiVersion] + init, parts[|parts| - 1], "/");
      assert ["api", "v" + ApiVersion] + init + [parts[|parts| - 1]] == ["api", "v" + ApiVersion] + parts;
    }
  }

  /** Splitting a path on `/` recovers the parts when none of them holds a
      slash. */
  lemma PathForSplit(parts: seq<string>)
    requires forall i :: 0 <= i < |parts| ==> '/' !in parts[i]
    ensures SplitAll(PathFor(parts), "/") == ["api", "v" + ApiVersion] + parts
  {
    PathForJoin(parts);
    PathSegmentsFree(parts);
    assert "/" == ['/'];
    SplitAllJoin(["api", "v" + ApiVersion] + parts, '/');
  }

  /** No segment of a path of slash-free parts holds a slash. */
  lemma PathSegmentsFree(parts: seq<string>)
    requires forall i :: 0 <= i < |parts| ==> '/' !in parts[i]
    ensures var all := ["api", "v" + ApiVersion] + parts;
            forall i :: 0 <= i < |all| ==> '/' !in all[i]
  {
    var all := ["api", "v" + ApiVersion] + parts;
    assert all[0] == "api" && all[1] == "v2";
    forall i | 2 <= i < |all| ensures '/' !in all[i] {
      assert all[i] == parts[i - 2];
    }
  }

  /** The path of a single part. */
  lemma PathForOne(part: string)
    ensures PathFor([part]) == "api/v2/" + part
  {
    assert [part][..0] == [];
    assert "api/v" + ApiVersion == "api/v2";
  }

  /** The path of two parts. */
  lemma PathForTwo(first: string, second: string)
    ensures PathFor([first, second]) == "api/v2/" + first + "/" + second
  {
    assert [first, second][..1] == [first];
    PathForOne(first);
  }

  lemma PatientsPath()
    ensures PathFor(["patients"]) == "api/v2/patients"
  {
    PathForOne("patients");
    assert "api/v2/" + "patients" == "api/v2/patients";
  }

  lemma FindPath()
    ensures PathFor(["patients", "find"]) == "api/v2/patients/find"
  {
    PathForTwo("patients", "find");
    assert "api/v2/" + "patients" + "/" + "find" == "api/v2/patients/find";
  }

  lemma OfficePath()
    ensures PathFor(["office"]) == "api/v2/office"
  {
    PathForOne("office");
    assert "api/v2/" + "office" == "api/v2/office";
  }

  /** Different slash-free parts give different paths. */
  lemma PathForInjective(a: seq<string>, b: seq<string>)
    requires forall i :: 0 <= i < |a| ==> '/' !in a[i]
    requires forall i :: 0 <= i < |b| ==> '/' !in b[i]
    requires PathFor(a) == PathFor(b)
    ensures a == b
  {
    PathForSplit(a);
    PathForSplit(b);
    assert a == (["api", "v" + ApiVersion] + a)[2..];
    assert b == (["api", "v" + ApiVersion] + b)[2..];
  }

  /** `"#{v}"`: string interpolation of a value into a path. */
  function ToS(v: Value): string {
    match v
    case Nil => ""
    case Bool(b) => if b then "true" else "false"
    case Int(i) => IntToS(i)
    case Text(s) => s
    case _ => Inspect(v)
  }

  /** `inspect`, which `to_s` is for arrays and hashes, in the
      `{:key=>value}` notation. */
  function Inspect(v: Value): string
    decreases v
  {
    match v
    case Nil => "nil"
    case Bool(b) => if b then "true" else "false"
    case Int(i) => IntToS(i)
    case Text(s) => "\"" + s + "\""
    case List(items) =>
      "[" + Join(seq(|items|, i requires 0 <= i < |items| => Inspect(items[i])), ", ") + "]"
    case Hash(entries) =>
      "{" + Join(seq(|entries|, i requires 0 <= i < |entries| =>
                   InspectKey(entries[i].0) + "=>" + Inspect(entries[i].1)), ", ") + "}"
    case Obj(e) => "#<" + Name(e.cls) + ">"
  }

  function InspectKey(k: Key): string {
    match k
    case Sym(n) => ":" + n
    case Str(n) => "\"" + n + "\""
  }

  /** `t` occurs in `s`. */
  predicate Contains(s: string, t: string) {
    exists i :: 0 <= i <= |s| && t <= s[i..]
  }

  /** `v[key]` for a string key: a hash's entry under that string (`nil`
      if none); a string gives the key when it contains it. */
  function Index(v: Value, key: string): Outcome<Value> {
    match v
    case Hash(entries) => Ok(Lookup(entries, Str(key)).GetOr(Nil))
    case Text(s) => Ok(if Contains(s, key) then Text(key) else Nil)
    case Nil => Raised(NoMethod("[]"))
    case Bool(_) => Raised(NoMethod("[]"))
    case Obj(_) => Raised(NoMethod("[]"))
    case Int(_) => Raised(TypeMismatch)
    case List(_) => Raised(TypeMismatch)
  }

  /** `@access_token.post(...)`/`.put(...)` then `.parsed`: an error reply
      raises `OAuth2::Error`. */
  function Delivered(reply: Reply): Outcome<Value> {
    match reply
    case Response(p) => Ok(p)
    case ErrorReply(status, message) => Raised(OAuth2(status, message))
    case ConnectionFailure => Raised(Transport)
  }

  /** `get(...).parsed`: `get` turns every exception, and a missing access
      token, into nil, whose `parsed` then fails. */
  function Fetched(hasToken: bool, reply: Reply): (r: Outcome<Value>)
    ensures r.Ok? <==> hasToken && reply.Response?
    ensures r.Raised? ==> r.error == NoMethod("parsed")
  {
    if hasToken && reply.Response? then Ok(reply.parsed) else Raised(NoMethod("parsed"))
  }

  /** What `parsed.each {|hash| ...}` iterates: an array's items; an empty
      hash yields nothing, a non-empty one yields pairs that cannot be
      indexed by a string, and other values have no `each`. */
  function Elements(v: Value): Outcome<seq<Value>> {
    match v
    case List(items) => Ok(items)
    case Hash(entries) => if entries == [] then Ok([]) else Raised(TypeMismatch)
    case _ => Raised(NoMethod("each"))
  }

  /** The elements of a fetched list. */
  function Listed(hasToken: bool, reply: Reply): Outcome<seq<Value>> {
    match Fetched(hasToken, reply)
    case Raised(e) => Raised(e)
    case Ok(v) => Elements(v)
  }

  /** Calling the reader `f` on an instance of `cls`. */
  function Read(cls: Class, ivars: map<string, Value>, f: string): Outcome<Value> {
    if f in Settable(cls) then Ok(Get(ivars, f)) else Raised(NoMethod(f))
  }

  // provider_exists? and requires_password?

  function ExistsRequest(email: Value, clientId: string, clientSecret: string): Request {
    Request(HttpGet, PathFor(["providers", "exists"]),
            [(Sym("email"), email), (Sym("client_id"), Text(clientId)), (Sym("client_secret"), Text(clientSecret))])
  }

  /** `provider_exists?`: a response means the provider exists, a 404
      error means it does not, and any other failure is raised again as
      it was. */
  function ExistsOutcome(reply: Reply): (r: Outcome<bool>)
    ensures r == Ok(true) <==> reply.Response?
    ensures r == Ok(false) <==> reply.ErrorReply? && reply.status == 404
    ensures r.Raised? ==> Delivered(reply) == Raised(r.error)
  {
    match reply
    case Response(_) => Ok(true)
    case ErrorReply(status, message) => if status == 404 then Ok(false) else Raised(OAuth2(status, message))
    case ConnectionFailure => Raised(Transport)
  }

  // login_without_password

  /** The password grant without a password: the office is identified by
      its application code when that is not blank, and otherwise by all of
      its fields; the provider's fields are always sent. */
  function CredentialsGrant(code: Value, office: Pairs, provider: Pairs): (g: Grant)
    ensures g.username == Text("") && g.password == Text("")
    ensures UniqueKeys(g.params) && |g.params| == 2
    ensures Lookup(g.params, Sym("provider")) == Some(Hash(provider))
    ensures Blank(code) ==> Lookup(g.params, Sym("office")) == Some(Hash(office)) && !HasKey(g.params, Sym("office_code"))
    ensures !Blank(code) ==> Lookup(g.params, Sym("office_code")) == Some(code) && !HasKey(g.params, Sym("office"))
  {
    var first := if Blank(code) then (Sym("office"), Hash(office)) else (Sym("office_code"), code);
    var g := Grant(Text(""), Text(""), [first, (Sym("provider"), Hash(provider))]);
    assert Keys(g.params) == [first.0, Sym("provider")];
    g
  }

  // patient_update

  /** The request `patient_update` sends for a patient with reader value
      `id` and serialisation `body`. */
  function UpdateRequest(id: Value, body: Pairs): Request {
    var params := [(Sym("patient"), Hash(body))];
    if Truthy(id) then Request(HttpPut, PathFor(["patients", ToS(id)]), params)
    else Request(HttpPost, PathFor(["patients"]), params)
  }

  /** The request actually sent: none when the entity has no `id` reader
      or when there is no access token to send it with. */
  function UpdateSent(cls: Class, ivars: map<string, Value>, hasToken: bool): Option<Request> {
    var id := Read(cls, ivars, "id");
    if id.Ok? && hasToken then Some(UpdateRequest(id.value, Serialize(cls, ivars))) else None
  }

  /** The hash under `"patient"` in the reply, to hydrate the entity with,
      or the exception raised before that point. */
  function UpdateReceived(cls: Class, ivars: map<string, Value>, hasToken: bool, reply: Reply): Outcome<Pairs> {
    var id := Read(cls, ivars, "id");
    if id.Raised? then Raised(id.error)
    else if !hasToken then Raised(NoMethod(if Truthy(id.value) then "put" else "post"))
    else match Delivered(reply)
      case Raised(e) => Raised(e)
      case Ok(parsed) =>
        match Index(parsed, "patient")
        case Raised(e) => Raised(e)
        case Ok(v) => if v.Hash? then Ok(v.entries) else Raised(TypeMismatch)
  }

  /** Saving a persistent entity: a request is sent exactly when there is
      an access token; it PUTs to `patients/<id>` when the id is truthy and
      POSTs to `patients` otherwise; its only parameter is `patient`, the
      entity's serialisation, which never holds `id`. */
  lemma SaveRequest(cls: Class, ivars: map<string, Value>, hasToken: bool)
    requires IsPersistent(cls)
    ensures UpdateSent(cls, ivars, hasToken).Some? <==> hasToken
    ensures hasToken ==>
              var req := UpdateSent(cls, ivars, hasToken).value;
              var id := Get(ivars, "id");
              && (req.verb == HttpPut <==> Truthy(id))
              && (req.verb == HttpPut ==> req.path == PathFor(["patients", ToS(id)]))
              && (req.verb == HttpPost ==> req.path == PathFor(["patients"]) && req.path == "api/v2/patients")
              && Keys(req.params) == [Sym("patient")]
              && req.params[0].1 == Hash(Serialize(cls, ivars))
              && !HasKey(Serialize(cls, ivars), Sym("id"))
  {
    PatientsPath();
    PersistentReadsId(cls);
    PersistentSerializationHasNoId(cls, ivars);
  }

  /** Every persistent class has an `id` reader and is no Provider. */
  lemma PersistentReadsId(cls: Class)
    requires IsPersistent(cls)
    ensures "id" in Settable(cls) && !IsA(cls, Provider)
  {
    assert cls == ApiPersistentObject || cls == Patient;
    assert "id" in Registry(ApiPersistentObject);
  }

  /** A persistent entity's serialisation never holds `id`. */
  lemma PersistentSerializationHasNoId(cls: Class, ivars: map<string, Value>)
    requires IsPersistent(cls)
    ensures !HasKey(Serialize(cls, ivars), Sym("id"))
  {
    PersistentReadsId(cls);
    WithoutKeys(FieldsHash(cls, ivars), Sym("id"));
  }

  /** A patient saved under an integer id is PUT to the path of that id,
      the same path `patient(id)` reads it from. */
  lemma SavedWhereFetched(id: int, body: Pairs)
    ensures var path := UpdateRequest(Int(id), body).path;
            && SplitAll(path, "/") == ["api", "v2", "patients", IntToS(id)]
            && path == LookupRequest(Int(id)).path
  {
    PathForSplit(["patients", IntToS(id)]);
    assert "v" + ApiVersion == "v2";
    assert ["api", "v" + ApiVersion] + ["patients", IntToS(id)] == ["api", "v2", "patients", IntToS(id)];
  }

  /** The prescriptions of the patient with id 42 are listed from
      `api/v2/patients/42/prescriptions`. */
  lemma PrescriptionsPathExample()
    ensures PathFor(["patients", ToS(Int(42)), "prescriptions"]) == "api/v2/patients/42/prescriptions"
  {
    IntToS42();
    PatientsPath();
    var parts := ["patients", "42", "prescriptions"];
    assert parts[..2] == ["patients", "42"] && parts[..2][..1] == ["patients"];
    assert PathFor(["patients", "42"]) == "api/v2/patients" + "/" + "42";
  }

  lemma IntToS42()
    ensures ToS(Int(42)) == "42"
  {
    assert NatToS(4) == "4";
  }

  // patient

  /** `patient(id_or_hash)`: a hash is search criteria for `patients/find`,
      anything else an id interpolated into `patients/<id>`. */
  function LookupRequest(query: Value): (req: Request)
    ensures req.verb == HttpGet
    ensures query.Hash? ==> req.path == "api/v2/patients/find" && req.params == query.entries
    ensures !query.Hash? ==> req.path == PathFor(["patients", ToS(query)]) && req.params == []
  {
    FindPath();
    if query.Hash? then Request(HttpGet, PathFor(["patients", "find"]), query.entries)
    else Request(HttpGet, PathFor(["patients", ToS(query)]), [])
  }

  /** A search never goes to an id's path, unless the id reads `find`. */
  lemma SearchAndIdRoutesDiffer(criteria: Pairs, id: Value)
    requires !id.Hash? && '/' !in ToS(id) && ToS(id) != "find"
    ensures LookupRequest(Hash(criteria)).path != LookupRequest(id).path
  {
    if PathFor(["patients", "find"]) == PathFor(["patients", ToS(id)]) {
      PathForInjective(["patients", "find"], ["patients", ToS(id)]);
    }
  }

  // patients

  /** `cls.new(v[key])` for one element of a fetched list succeeds. */
  predicate ItemOk(cls: Class, key: string, v: Value) {
    Index(v, key).Ok? && Construct(cls, Index(v, key).value).error == None
  }

  /** The exception a failing element raises. */
  function ItemError(cls: Class, key: string, v: Value): RubyError {
    match Index(v, key)
    case Raised(e) => e
    case Ok(w) => Construct(cls, w).error.GetOr(TypeMismatch)
  }

  /** Building one entity per element, in order, stopping at the first
      element that raises. */
  function HydrateEach(cls: Class, key: string, items: seq<Value>): (r: Outcome<seq<Hydration>>)
    ensures r.Ok? ==> |r.value| == |items|
    decreases |items|
  {
    if items == [] then Ok([])
    else if !ItemOk(cls, key, items[0]) then Raised(ItemError(cls, key, items[0]))
    else
      match HydrateEach(cls, key, items[1..])
      case Raised(e) => Raised(e)
      case Ok(rest) => Ok([Construct(cls, Index(items[0], key).value)] + rest)
  }

  /** When every element succeeds the list has one entity per element, in
      the order of the elements. */
  lemma {:induction false} HydrateEachAllOk(cls: Class, key: string, items: seq<Value>)
    requires forall j :: 0 <= j < |items| ==> ItemOk(cls, key, items[j])
    ensures HydrateEach(cls, key, items).Ok?
    ensures |HydrateEach(cls, key, items).value| == |items|
    ensures forall j :: 0 <= j < |items| ==>
              Index(items[j], key).Ok? && HydrateEach(cls, key, items).value[j] == Construct(cls, Index(items[j], key).value)
    decreases |items|
  {
    if items != [] {
      assert forall j :: 0 <= j < |items[1..]| ==> items[1..][j] == items[j + 1];
      HydrateEachAllOk(cls, key, items[1..]);
    }
  }

  /** The first element that fails decides the exception. */
  lemma {:induction false} HydrateEachFirstFailure(cls: Class, key: string, items: seq<Value>, i: nat)
    requires i < |items| && !ItemOk(cls, key, items[i])
    requires forall j :: 0 <= j < i ==> ItemOk(cls, key, items[j])
    ensures HydrateEach(cls, key, items) == Raised(ItemError(cls, key, items[i]))
    decreases i
  {
    if i > 0 {
      assert forall j :: 0 <= j < |items[1..]| ==> items[1..][j] == items[j + 1];
      HydrateEachFirstFailure(cls, key, items[1..], i - 1);
    }
  }

  // save

  /** The error lines as the Ruby array `save` returns. */
  function Lines(lines: seq<string>): Value {
    List(seq(|lines|, i requires 0 <= i < |lines| => Text(lines[i])))
  }

  /** The server's validation messages that `save` records for a patient
      without last name and email. */
  lemma ValidationMessagesSplit()
    ensures Split("Last name can't be blank\nEmail can't be blank", "\n") ==
            ["Last name can't be blank", "Email can't be blank"]
  {
    var a, b := "Last name can't be blank", "Email can't be blank";
    JoinCons(a, [b], "\n");
    assert a + "\n" + b == "Last name can't be blank\nEmail can't be blank";
    assert '\n' !in a && '\n' !in b;
    SplitAllJoin([a, b], '\n');
  }

  // patient_prescriptions

  /** `patient_prescriptions` as written: `parsed.each {...}` builds a
      Prescription per element but returns its receiver, the parsed list. */
  function PrescriptionsAsWritten(hasToken: bool, reply: Reply): Outcome<Value> {
    match Listed(hasToken, reply)
    case Raised(e) => Raised(e)
    case Ok(items) =>
      match HydrateEach(Prescription, "prescription", items)
      case Raised(e) => Raised(e)
      case Ok(_) => Fetched(hasToken, reply)
  }

  /** Whatever succeeds, the result is the reply's own parsed body, never
      the Prescriptions built from it. */
  lemma PrescriptionsAsWrittenReturnsBody(hasToken: bool, reply: Reply)
    requires PrescriptionsAsWritten(hasToken, reply).Ok?
    ensures reply.Response? && PrescriptionsAsWritten(hasToken, reply) == Ok(reply.parsed)
  {
  }

  /** One prescription in the reply: the method returns the raw hash
      `{"prescription" => {}}` instead of a Prescription. */
  lemma PrescriptionsAsWrittenExample()
    ensures var item := Hash([(Str("prescription"), Hash([]))]);
            PrescriptionsAsWritten(true, Response(List([item]))) == Ok(List([item]))
  {
    var item := Hash([(Str("prescription"), Hash([]))]);
    assert Index(item, "prescription") == Ok(Hash([]));
    assert ItemOk(Prescription, "prescription", item) by {
      ExtractNilWorkoutOfEmpty();
    }
    HydrateEachAllOk(Prescription, "prescription", [item]);
  }

  lemma ExtractNilWorkoutOfEmpty()
    ensures ExtractWorkout([]) == ([], Nil)
    ensures Hydrate(Prescription, map[], []) == Hydration(map[], None, None)
  {
  }

  // ---------------------------------------------------------------------
  // Entities
  // ---------------------------------------------------------------------

  /** The Workout object a Prescription holds under `workout`, if any. */
  ghost function WorkoutObject(e: Entity): set<object>
    reads e
  {
    if "workout" in e.ivars && e.ivars["workout"].Obj? then {e.ivars["workout"].entity} else {}
  }

  /** `e` is in the state hydration `h` describes: its instance variables
      are `h.ivars`, except that a Workout built by hydration is the object
      under `workout`. */
  ghost predicate Realises(e: Entity, h: Hydration)
    reads e, WorkoutObject(e)
  {
    match h.workout
    case None => e.ivars == h.ivars
    case Some(fields) =>
      && "workout" in e.ivars && e.ivars["workout"].Obj?
      && e.ivars - {"workout"} == h.ivars - {"workout"}
      && e.ivars["workout"].entity.cls == Workout
      && e.ivars["workout"].entity.ivars == fields
  }

  /** An instance of one of the entity classes. `cls` is its class, `api`
      the `Api` a persistent entity was given (`nil` otherwise), `ivars`
      its instance variables and `errors` the `@errors` of a persistent
      entity. */
  class Entity {
    const cls: Class
    const api: Api?
    var ivars: map<string, Value>
    var errors: Option<seq<string>>

    constructor (cls: Class, api: Api?)
      ensures this.cls == cls && this.api == api
      ensures ivars == map[] && errors == None
    {
      this.cls := cls;
      this.api := api;
      ivars := map[];
      errors := None;
    }

    /** `cls.new(values)`, or `cls.new(api, values)` for a persistent
        class: a fresh instance hydrated from `values`. */
    static method New(cls: Class, api: Api?, values: Value) returns (r: Outcome<Entity>)
      ensures r.Raised? <==> Construct(cls, values).error.Some?
      ensures r.Raised? ==> r.error == Construct(cls, values).error.value
      ensures r.Ok? ==> && fresh(r.value) && r.value.cls == cls && r.value.api == api
                        && r.value.errors == None && Realises(r.value, Construct(cls, values))
    {
      var e := new Entity(cls, api);
      if !values.Hash? {
        return Raised(TypeMismatch);
      }
      var table := new Table(values.entries);
      var st := e.SetAttributes(table);
      if st.Failed? {
        r := Raised(st.error);
      } else {
        r := Ok(e);
      }
    }

    /** `ApiObject#attributes=`: one setter call per key, in order, until
        a key has no setter. */
    method AssignAll(entries: Pairs) returns (unknown: Option<Key>)
      modifies this
      ensures Assignment(ivars, unknown) == Assign(cls, old(ivars), entries)
      ensures errors == old(errors)
    {
      var i := 0;
      unknown := None;
      while i < |entries|
        invariant 0 <= i <= |entries|
        invariant Assign(cls, old(ivars), entries) == Assign(cls, ivars, entries[i..])
        invariant errors == old(errors)
      {
        var (k, v) := entries[i];
        if k.name !in Settable(cls) {
          unknown := Some(k);
          return;
        }
        ivars := ivars[k.name := v];
        assert entries[i..][1..] == entries[i + 1..];
        i := i + 1;
      }
    }

    /** `attributes = values` as the class resolves it. A Patient deletes
        the alias keys from the caller's hash; a Prescription works on a
        copy and builds its Workout afterwards. */
    method SetAttributes(values: Table<Key, Value>) returns (st: Status)
      modifies this, values
      ensures var h := Hydrate(cls, old(ivars), old(values.entries));
              && st == (if h.error.Some? then Failed(h.error.value) else Done)
              && Realises(this, h)
              && (h.workout.Some? ==> fresh(ivars["workout"].entity))
      ensures values.entries == if IsA(cls, Patient) then NormaliseConnected(old(values.entries)) else old(values.entries)
      ensures errors == old(errors)
    {
      ghost var given := values.entries;
      if IsA(cls, Patient) {
        NormaliseInPlace(values);
        var unknown := AssignAll(values.entries);
        st := if unknown.Some? then Failed(SetterError(unknown.value)) else Done;
        assert Hydrate(cls, old(ivars), given) == Finish(Assign(cls, old(ivars), NormaliseConnected(given)));
      } else if IsA(cls, Prescription) {
        var copy := values.Dup();
        st := SetPrescriptionAttributes(copy);
      } else {
        var unknown := AssignAll(values.entries);
        st := if unknown.Some? then Failed(SetterError(unknown.value)) else Done;
        assert Hydrate(cls, old(ivars), given) == Finish(Assign(cls, old(ivars), given));
      }
    }

    /** The Prescription case of `attributes=`, on the copy of the caller's
        hash: the workout is taken out, the other fields assigned, and a
        truthy workout becomes a Workout built from it. */
    method SetPrescriptionAttributes(copy: Table<Key, Value>) returns (st: Status)
      requires IsA(cls, Prescription) && !IsA(cls, Patient)
      modifies this, copy
      ensures var h := Hydrate(cls, old(ivars), old(copy.entries));
              && st == (if h.error.Some? then Failed(h.error.value) else Done)
              && Realises(this, h)
              && (h.workout.Some? ==> fresh(ivars["workout"].entity))
      ensures errors == old(errors)
    {
      ghost var given := copy.entries;
      var workout := TakeWorkout(copy);
      var unknown := AssignAll(copy.entries);
      if unknown.Some? {
        st := Failed(SetterError(unknown.value));
      } else {
        st := AttachWorkoutValue(workout);
      }
    }

    /** The last line of `Prescription#attributes=`: a truthy workout value
        becomes a Workout under `workout`. */
    method AttachWorkoutValue(workout: Value) returns (st: Status)
      modifies this
      ensures var h := AttachWorkout(old(ivars), workout);
              && st == (if h.error.Some? then Failed(h.error.value) else Done)
              && Realises(this, h)
              && (h.workout.Some? ==> fresh(ivars["workout"].entity))
      ensures errors == old(errors)
    {
      if !Truthy(workout) {
        st := Done;
      } else if !workout.Hash? {
        st := Failed(TypeMismatch);
      } else {
        var w := new Entity(Workout, null);
        var nested := w.AssignAll(workout.entries);
        if nested.Some? {
          st := Failed(SetterError(nested.value));
        } else {
          ghost var before := ivars;
          ivars := ivars["workout" := Obj(w)];
          assert ivars - {"workout"} == before - {"workout"};
          st := Done;
        }
      }
    }

    /** `to_hash` as the class resolves it. */
    method ToHash() returns (h: Pairs)
      ensures h == Serialize(cls, ivars)
    {
      h := FieldsToHash();
      if IsA(cls, Provider) {
        h := MoveUserFields(h);
      } else if IsPersistent(cls) {
        h := Without(h, Sym("id"));
      }
    }

    /** `ApiObject#to_hash`: one entry per registered field, in order. */
    method FieldsToHash() returns (h: Pairs)
      ensures h == FieldsHash(cls, ivars)
    {
      var reg := Registry(cls);
      h := [];
      for i := 0 to |reg|
        invariant h == FieldsHash(cls, ivars)[..i]
      {
        var e := (Sym(reg[i]), Get(ivars, reg[i]));
        assert !HasKey(h, e.0) by {
          forall j | 0 <= j < i ensures Keys(h)[j] != e.0 {
            assert h[j].0 == Sym(reg[j]);
          }
        }
        h := Store(h, e.0, e.1);
        assert FieldsHash(cls, ivars)[..i + 1] == FieldsHash(cls, ivars)[..i] + [e];
      }
      assert FieldsHash(cls, ivars)[..|reg|] == FieldsHash(cls, ivars);
    }

    /** `ApiPersistentObject#save`: hands the entity to the `Api` method
        `save_method` names. An OAuth2 error is caught: its message split
        into lines becomes `errors` and the result; other exceptions pass
        through. `errors` is never cleared. */
    method Save(reply: Reply) returns (sent: Option<Request>, r: Outcome<Value>)
      modifies this
      ensures !IsPersistent(cls) ==>
                sent == None && r == Raised(NoMethod("save")) && ivars == old(ivars) && errors == old(errors)
      ensures IsPersistent(cls) && (api == null || SaveMethod(cls) != "patient_update") ==>
                sent == None && r == Raised(NoMethod(SaveMethod(cls))) && ivars == old(ivars) && errors == old(errors)
      ensures IsPersistent(cls) && api != null && SaveMethod(cls) == "patient_update" ==>
                var received := UpdateReceived(cls, old(ivars), api.accessToken.Some?, reply);
                && sent == UpdateSent(cls, old(ivars), api.accessToken.Some?)
                && (received.Raised? && received.error.OAuth2? ==>
                      && ivars == old(ivars)
                      && errors == Some(Split(received.error.message, "\n"))
                      && r == Ok(Lines(errors.value)))
                && (received.Raised? && !received.error.OAuth2? ==>
                      ivars == old(ivars) && errors == old(errors) && r == Raised(received.error))
                && (received.Ok? ==>
                      var h := Hydrate(cls, old(ivars), received.value);
                      && Realises(this, h)
                      && errors == old(errors)
                      && r == (if h.error.Some? then Raised(h.error.value) else Ok(Obj(this))))
    {
      if !IsPersistent(cls) {
        return None, Raised(NoMethod("save"));
      }
      if api == null || SaveMethod(cls) != "patient_update" {
        return None, Raised(NoMethod(SaveMethod(cls)));
      }
      sent, r := SaveThroughApi(reply);
    }

    /** The `patient_update` case of `save`, with the OAuth2 rescue. */
    method SaveThroughApi(reply: Reply) returns (sent: Option<Request>, r: Outcome<Value>)
      requires api != null
      modifies this
      ensures var received := UpdateReceived(cls, old(ivars), api.accessToken.Some?, reply);
              && sent == UpdateSent(cls, old(ivars), api.accessToken.Some?)
              && (received.Raised? && received.error.OAuth2? ==>
                    && ivars == old(ivars)
                    && errors == Some(Split(received.error.message, "\n"))
                    && r == Ok(Lines(errors.value)))
              && (received.Raised? && !received.error.OAuth2? ==>
                    ivars == old(ivars) && errors == old(errors) && r == Raised(received.error))
              && (received.Ok? ==>
                    var h := Hydrate(cls, old(ivars), received.value);
                    && Realises(this, h)
                    && errors == old(errors)
                    && r == (if h.error.Some? then Raised(h.error.value) else Ok(Obj(this))))
    {
      var result;
      sent, result := api.PatientUpdate(this, reply);
      if result.Raised? && result.error.OAuth2? {
        var lines := Split(result.error.message, "\n");
        errors := Some(lines);
        r := Ok(Lines(lines));
      } else {
        r := result;
      }
    }
  }

  // ---------------------------------------------------------------------
  // The Api object
  // ---------------------------------------------------------------------

  /** `MyRxx::Api`: the client credentials, the server chosen by mode, the
      office and provider it acts for, and the access token once logged
      in. */
  class Api {
    const clientId: string
    const clientSecret: string
    const redirectUri: string
    const serverUrl: string
    const office: Entity
    const provider: Entity
    var accessToken: Option<Token>

    constructor (clientId: string, clientSecret: string, redirectUri: string, office: Entity, provider: Entity,
                 mode: Option<string>)
      ensures this.clientId == clientId && this.clientSecret == clientSecret && this.redirectUri == redirectUri
      ensures this.office == office && this.provider == provider
      ensures serverUrl == ServerUrl(mode) && accessToken == None
    {
      this.clientId := clientId;
      this.clientSecret := clientSecret;
      this.redirectUri := redirectUri;
      this.office := office;
      this.provider := provider;
      serverUrl := ServerUrl(mode);
      accessToken := None;
    }

    /** `login_with_access_token`. */
    method LoginWithAccessToken(tokenHash: Value)
      modifies this
      ensures accessToken == Some(Token(tokenHash))
    {
      accessToken := Some(Token(tokenHash));
    }

    /** `login_with_password`: the provider's email and the password are
        exchanged for a token; `issued` is what the exchange gives. */
    method LoginWithPassword(password: string, issued: Outcome<Token>) returns (grant: Option<Grant>, st: Status)
      modifies this
      ensures var email := Read(provider.cls, provider.ivars, "email");
              && grant == (if email.Ok? then Some(Grant(email.value, Text(password), [])) else None)
              && (email.Raised? ==> st == Failed(email.error) && accessToken == old(accessToken))
              && (email.Ok? && issued.Ok? ==> st == Done && accessToken == Some(issued.value))
              && (email.Ok? && issued.Raised? ==> st == Failed(issued.error) && accessToken == old(accessToken))
    {
      var email := Read(provider.cls, provider.ivars, "email");
      if email.Raised? {
        return None, Failed(email.error);
      }
      grant := Some(Grant(email.value, Text(password), []));
      if issued.Ok? {
        accessToken := Some(issued.value);
        st := Done;
      } else {
        st := Failed(issued.error);
      }
    }

    /** `login_without_password`: the grant built from the office's
        application code or fields and the provider's fields. */
    method LoginWithoutPassword(issued: Outcome<Token>) returns (grant: Option<Grant>, st: Status)
      modifies this
      ensures var code := Read(office.cls, office.ivars, "application_code");
              && grant == (if code.Ok? then Some(CredentialsGrant(code.value, Serialize(office.cls, office.ivars),
                                                                  Serialize(provider.cls, provider.ivars)))
                           else None)
              && (code.Raised? ==> st == Failed(code.error) && accessToken == old(accessToken))
              && (code.Ok? && issued.Ok? ==> st == Done && accessToken == Some(issued.value))
              && (code.Ok? && issued.Raised? ==> st == Failed(issued.error) && accessToken == old(accessToken))
    {
      var code := Read(office.cls, office.ivars, "application_code");
      if code.Raised? {
        return None, Failed(code.error);
      }
      var officeHash := office.ToHash();
      var providerHash := provider.ToHash();
      grant := Some(CredentialsGrant(code.value, officeHash, providerHash));
      if issued.Ok? {
        accessToken := Some(issued.value);
        st := Done;
      } else {
        st := Failed(issued.error);
      }
    }

    /** `provider_exists?(email)`. */
    method ProviderExists(email: Value, reply: Reply) returns (sent: Request, r: Outcome<bool>)
      ensures sent == ExistsRequest(email, clientId, clientSecret)
      ensures r == ExistsOutcome(reply)
    {
      sent := ExistsRequest(email, clientId, clientSecret);
      r := ExistsOutcome(reply);
    }

    /** `requires_password?`: whether the provider's email is known to the
        server. */
    method RequiresPassword(reply: Reply) returns (sent: Option<Request>, r: Outcome<bool>)
      ensures var email := Read(provider.cls, provider.ivars, "email");
              && (email.Raised? ==> sent == None && r == Raised(email.error))
              && (email.Ok? ==> sent == Some(ExistsRequest(email.value, clientId, clientSecret)) && r == ExistsOutcome(reply))
    {
      var email := Read(provider.cls, provider.ivars, "email");
      if email.Raised? {
        return None, Raised(email.error);
      }
      var req;
      req, r := ProviderExists(email.value, reply);
      sent := Some(req);
    }

    /** `patient_update(patient)`: PUT or POST the patient's serialisation,
        then hydrate the patient from the reply's `"patient"` hash. */
    method PatientUpdate(patient: Entity, reply: Reply) returns (sent: Option<Request>, r: Outcome<Value>)
      modifies patient
      ensures sent == UpdateSent(patient.cls, old(patient.ivars), accessToken.Some?)
      ensures var received := UpdateReceived(patient.cls, old(patient.ivars), accessToken.Some?, reply);
              && (received.Raised? ==> r == Raised(received.error) && patient.ivars == old(patient.ivars))
              && (received.Ok? ==>
                    var h := Hydrate(patient.cls, old(patient.ivars), received.value);
                    Realises(patient, h) && r == (if h.error.Some? then Raised(h.error.value) else Ok(Obj(patient))))
      ensures patient.errors == old(patient.errors)
    {
      var id := Read(patient.cls, patient.ivars, "id");
      if id.Raised? {
        return None, Raised(id.error);
      }
      var body := patient.ToHash();
      var req := UpdateRequest(id.value, body);
      if accessToken.None? {
        return None, Raised(NoMethod(if req.verb == HttpPut then "put" else "post"));
      }
      sent := Some(req);
      var delivered := Delivered(reply);
      if delivered.Raised? {
        return sent, Raised(delivered.error);
      }
      var v := Index(delivered.value, "patient");
      if v.Raised? {
        return sent, Raised(v.error);
      }
      if !v.value.Hash? {
        return sent, Raised(TypeMismatch);
      }
      var table := new Table(v.value.entries);
      var st := patient.SetAttributes(table);
      r := if st.Failed? then Raised(st.error) else Ok(Obj(patient));
    }

    /** `patient(id_or_hash)`. */
    method Patient(query: Value, reply: Reply) returns (sent: Option<Request>, r: Outcome<Entity>)
      ensures sent == if accessToken.Some? then Some(LookupRequest(query)) else None
      ensures var found := FetchedEntry(accessToken.Some?, reply, "patient");
              && (found.Raised? ==> r == Raised(found.error))
              && (found.Ok? ==>
                    var h := Construct(Schema.Patient, found.value);
                    && (r.Raised? <==> h.error.Some?)
                    && (r.Raised? ==> r.error == h.error.value)
                    && (r.Ok? ==> fresh(r.value) && r.value.cls == Schema.Patient && r.value.api == this && Realises(r.value, h)))
    {
      sent := if accessToken.Some? then Some(LookupRequest(query)) else None;
      r := BuildFetched(Schema.Patient, this, accessToken.Some?, reply, "patient");
    }

    /** `office`: the current office, from `GET api/v2/office`. */
    method GetOffice(reply: Reply) returns (sent: Option<Request>, r: Outcome<Entity>)
      ensures sent == if accessToken.Some? then Some(Request(HttpGet, "api/v2/office", [])) else None
      ensures var found := FetchedEntry(accessToken.Some?, reply, "office");
              && (found.Raised? ==> r == Raised(found.error))
              && (found.Ok? ==>
                    var h := Construct(Schema.Office, found.value);
                    && (r.Raised? <==> h.error.Some?)
                    && (r.Raised? ==> r.error == h.error.value)
                    && (r.Ok? ==> fresh(r.value) && r.value.cls == Schema.Office && Realises(r.value, h)))
    {
      OfficePath();
      sent := if accessToken.Some? then Some(Request(HttpGet, PathFor(["office"]), [])) else None;
      r := BuildFetched(Schema.Office, null, accessToken.Some?, reply, "office");
    }

    /** `prescribe_patient(patient)`: the redirect for prescribing to a
        patient, from `GET api/v2/patients/<id>/prescriptions/new`. */
    method PrescribePatient(patient: Entity, reply: Reply) returns (sent: Option<Request>, r: Outcome<Entity>)
      ensures var id := Read(patient.cls, patient.ivars, "id");
              && sent == (if id.Ok? && accessToken.Some?
                          then Some(Request(HttpGet, PathFor(["patients", ToS(id.value), "prescriptions", "new"]), []))
                          else None)
              && (id.Raised? ==> r == Raised(id.error))
              && (id.Ok? ==>
                    var found := FetchedEntry(accessToken.Some?, reply, "prescriberedirect");
                    && (found.Raised? ==> r == Raised(found.error))
                    && (found.Ok? ==>
                          var h := Construct(PrescribeRedirect, found.value);
                          && (r.Raised? <==> h.error.Some?)
                          && (r.Raised? ==> r.error == h.error.value)
                          && (r.Ok? ==> fresh(r.value) && r.value.cls == PrescribeRedirect && Realises(r.value, h))))
    {
      var id := Read(patient.cls, patient.ivars, "id");
      if id.Raised? {
        return None, Raised(id.error);
      }
      sent := if accessToken.Some?
              then Some(Request(HttpGet, PathFor(["patients", ToS(id.value), "prescriptions", "new"]), []))
              else None;
      r := BuildFetched(PrescribeRedirect, null, accessToken.Some?, reply, "prescriberedirect");
    }

    /** `new_patient(attributes_hash)`: an unsaved Patient of this `Api`. */
    method NewPatient(attributes: Value) returns (r: Outcome<Entity>)
      ensures var h := Construct(Schema.Patient, attributes);
              && (r.Raised? <==> h.error.Some?)
              && (r.Raised? ==> r.error == h.error.value)
              && (r.Ok? ==> && fresh(r.value) && r.value.cls == Schema.Patient && r.value.api == this
                            && r.value.ivars == h.ivars && r.value.errors == None)
    {
      r := Entity.New(Schema.Patient, this, attributes);
    }

    /** `create_patient(attributes_hash)`: a new Patient, saved at once;
        the result is what `save` returns. */
    method CreatePatient(attributes: Value, reply: Reply) returns (sent: Option<Request>, r: Outcome<Value>)
      ensures var h := Construct(Schema.Patient, attributes);
              && (h.error.Some? ==> sent == None && r == Raised(h.error.value))
              && (h.error.None? ==>
                    var received := UpdateReceived(Schema.Patient, h.ivars, accessToken.Some?, reply);
                    && sent == UpdateSent(Schema.Patient, h.ivars, accessToken.Some?)
                    && (received.Raised? && received.error.OAuth2? ==>
                          r == Ok(Lines(Split(received.error.message, "\n"))))
                    && (received.Raised? && !received.error.OAuth2? ==> r == Raised(received.error))
                    && (received.Ok? ==>
                          var saved := Hydrate(Schema.Patient, h.ivars, received.value);
                          && (saved.error.Some? ==> r == Raised(saved.error.value))
                          && (saved.error.None? ==> r.Ok? && r.value.Obj? && r.value.entity.ivars == saved.ivars)))
    {
      var p := NewPatient(attributes);
      if p.Raised? {
        return None, Raised(p.error);
      }
      PatientSavesThroughPatientUpdate();
      sent, r := p.value.Save(reply);
    }

    /** `patients`: one Patient per element of the fetched list, in order. */
    method Patients(reply: Reply) returns (sent: Option<Request>, r: Outcome<seq<Entity>>)
      ensures sent == if accessToken.Some? then Some(Request(HttpGet, PathFor(["patients"]), [])) else None
      ensures var listed := Listed(accessToken.Some?, reply);
              && (listed.Raised? ==> r == Raised(listed.error))
              && (listed.Ok? ==>
                    var spec := HydrateEach(Schema.Patient, "patient", listed.value);
                    && (r.Raised? <==> spec.Raised?)
                    && (r.Raised? ==> r.error == spec.error)
                    && (r.Ok? ==>
                          && |r.value| == |listed.value|
                          && forall i :: 0 <= i < |r.value| ==>
                               && fresh(r.value[i]) && r.value[i].cls == Schema.Patient && r.value[i].api == this
                               && Realises(r.value[i], spec.value[i])))
    {
      sent := if accessToken.Some? then Some(Request(HttpGet, PathFor(["patients"]), [])) else None;
      var listed := Listed(accessToken.Some?, reply);
      if listed.Raised? {
        return sent, Raised(listed.error);
      }
      r := BuildEach(Schema.Patient, this, "patient", listed.value);
    }

    /** `patient_prescriptions(patient)`, returning the Prescriptions it
        builds (see `PrescriptionsAsWritten` for what the library returns
        instead). */
    method PatientPrescriptions(patient: Entity, reply: Reply) returns (sent: Option<Request>, r: Outcome<seq<Entity>>)
      ensures var id := Read(patient.cls, patient.ivars, "id");
              && sent == (if id.Ok? && accessToken.Some?
                          then Some(Request(HttpGet, PathFor(["patients", ToS(id.value), "prescriptions"]), []))
                          else None)
              && (id.Raised? ==> r == Raised(id.error))
              && (id.Ok? ==>
                    var listed := Listed(accessToken.Some?, reply);
                    && (listed.Raised? ==> r == Raised(listed.error))
                    && (listed.Ok? ==>
                          var spec := HydrateEach(Prescription, "prescription", listed.value);
                          && (r.Raised? <==> spec.Raised?)
                          && (r.Raised? ==> r.error == spec.error)
                          && (r.Ok? ==>
                                && |r.value| == |listed.value|
                                && forall i :: 0 <= i < |r.value| ==>
                                     && fresh(r.value[i]) && r.value[i].cls == Prescription
                                     && Realises(r.value[i], spec.value[i]))))
    {
      var id := Read(patient.cls, patient.ivars, "id");
      if id.Raised? {
        return None, Raised(id.error);
      }
      sent := if accessToken.Some?
              then Some(Request(HttpGet, PathFor(["patients", ToS(id.value), "prescriptions"]), []))
              else None;
      var listed := Listed(accessToken.Some?, reply);
      if listed.Raised? {
        return sent, Raised(listed.error);
      }
      r := BuildEach(Prescription, null, "prescription", listed.value);
    }
  }

  /** `Provider#to_hash` after `ApiObject#to_hash` built `fields`. */
  method MoveUserFields(fields: Pairs) returns (h: Pairs)
    ensures h == NestUserAttributes(fields)
  {
    var userAttributes;
    h, userAttributes := DeleteFields(fields, UserFields);
    h := Store(h, Sym("user_attributes"), Hash(userAttributes));
  }

  /** The loop of `Provider#to_hash`: each of `names` is deleted from the
      hash in turn, and a non-blank value deleted is kept, in order. */
  method DeleteFields(fields: Pairs, names: seq<string>) returns (h: Pairs, kept: Pairs)
    requires forall i, j :: 0 <= i < j < |names| ==> names[i] != names[j]
    ensures h == DropKeys(fields, names)
    ensures kept == UserAttributes(fields, names)
  {
    kept := [];
    h := fields;
    for i := 0 to |names|
      invariant h == DropKeys(fields, names[..i])
      invariant kept == UserAttributes(fields, names[..i])
    {
      var k := Sym(names[i]);
      ghost var done := names[..i];
      assert names[..i + 1][..i] == done && names[..i + 1][i] == names[i];
      assert names[i] !in done;
      DropKeysLookup(fields, done);
      var val := Lookup(h, k).GetOr(Nil);
      h := Without(h, k);
      if !Blank(val) {
        UserAttributesLookup(fields, done);
        assert Lookup(kept, k) == None;
        kept := Store(kept, k, val);
      }
    }
    assert names[..|names|] == names;
  }

  /** `values.delete(:workout) || values.delete("workout")` on the copy:
      the workout value, and the copy without the keys it came from. */
  method TakeWorkout(copy: Table<Key, Value>) returns (workout: Value)
    modifies copy
    ensures (copy.entries, workout) == ExtractWorkout(old(copy.entries))
  {
    var first := copy.Delete(Sym("workout"));
    workout := first.GetOr(Nil);
    if !Truthy(workout) {
      var second := copy.Delete(Str("workout"));
      workout := second.GetOr(Nil);
    }
  }

  /** The alias loop of `Patient#attributes=`, on the caller's hash: each
      spelling of `is_connected?` is deleted, and a truthy value is stored
      under `:is_connected`. */
  method NormaliseInPlace(values: Table<Key, Value>)
    modifies values
    ensures values.entries == NormaliseConnected(old(values.entries))
  {
    var aliases := ConnectedAliases;
    for i := 0 to |aliases|
      invariant values.entries == Normalise(old(values.entries), aliases[..i])
    {
      var v := values.Delete(aliases[i]);
      if v.Some? && Truthy(v.value) {
        values.Put(Sym("is_connected"), v.value);
      }
      assert aliases[..i + 1][..i] == aliases[..i];
    }
    assert aliases[..|aliases|] == aliases;
  }

  /** `get(...).parsed[key]`: the entry under `key` of a fetched body. */
  function FetchedEntry(hasToken: bool, reply: Reply, key: string): Outcome<Value> {
    match Fetched(hasToken, reply)
    case Raised(e) => Raised(e)
    case Ok(v) => Index(v, key)
  }

  /** `cls.new(get(...).parsed[key])`. */
  method BuildFetched(cls: Class, api: Api?, hasToken: bool, reply: Reply, key: string) returns (r: Outcome<Entity>)
    ensures var found := FetchedEntry(hasToken, reply, key);
            && (found.Raised? ==> r == Raised(found.error))
            && (found.Ok? ==>
                  var h := Construct(cls, found.value);
                  && (r.Raised? <==> h.error.Some?)
                  && (r.Raised? ==> r.error == h.error.value)
                  && (r.Ok? ==> fresh(r.value) && r.value.cls == cls && r.value.api == api && Realises(r.value, h)))
  {
    var found := FetchedEntry(hasToken, reply, key);
    if found.Raised? {
      return Raised(found.error);
    }
    r := Entity.New(cls, api, found.value);
  }

  /** `cls.new(item[key])` for one element of a fetched list. */
  method BuildOne(cls: Class, api: Api?, key: string, item: Value) returns (r: Outcome<Entity>)
    ensures r.Raised? <==> !ItemOk(cls, key, item)
    ensures r.Raised? ==> r.error == ItemError(cls, key, item)
    ensures r.Ok? ==> && fresh(r.value) && r.value.cls == cls && r.value.api == api
                      && Realises(r.value, Construct(cls, Index(item, key).value))
  {
    var v := Index(item, key);
    if v.Raised? {
      return Raised(v.error);
    }
    r := Entity.New(cls, api, v.value);
  }

  /** `cls.new(item[key])` for each item, collected in order; the first
      failure is raised. */
  method BuildEach(cls: Class, api: Api?, key: string, items: seq<Value>) returns (r: Outcome<seq<Entity>>)
    ensures var spec := HydrateEach(cls, key, items);
            && (r.Raised? <==> spec.Raised?)
            && (r.Raised? ==> r.error == spec.error)
            && (r.Ok? ==>
                  && |r.value| == |items|
                  && forall i :: 0 <= i < |items| ==>
                       && fresh(r.value[i]) && r.value[i].cls == cls && r.value[i].api == api
                       && Realises(r.value[i], spec.value[i]))
  {
    var built: seq<Entity> := [];
    ghost var specs: seq<Hydration> := [];
    for i := 0 to |items|
      invariant |built| == i && |specs| == i
      invariant forall j :: 0 <= j < i ==>
                  ItemOk(cls, key, items[j]) && specs[j] == Construct(cls, Index(items[j], key).value)
      invariant forall j :: 0 <= j < i ==>
                  && fresh(built[j]) && built[j].cls == cls && built[j].api == api
                  && Realises(built[j], specs[j])
    {
      var e := BuildOne(cls, api, key, items[i]);
      if e.Raised? {
        HydrateEachFirstFailure(cls, key, items, i);
        return Raised(e.error);
      }
      built := built + [e.value];
      specs := specs + [Construct(cls, Index(items[i], key).value)];
    }
    HydrateEachAllOk(cls, key, items);
    r := Ok(built);
  }
}
