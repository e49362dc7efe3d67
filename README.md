# MyRxx client library, modelled in Dafny

This project models the MyRxx Ruby client (`lib/myrxx/myrxx.rb`). The client has two parts.

- **Entity objects.** An entity is hydrated from a Ruby hash by calling one setter per key (`attributes=`). It is serialised back by reading the fields its class declares (`to_hash`). The entity classes are `Office`, `Provider`, `Patient`, `Prescription`, `Workout` and `PrescribeRedirect`. `Patient` is persistent through `ApiPersistentObject`.
- **The `Api` object.** It chooses a server by mode and logs in. It builds request paths and routes a patient save to PUT or POST. It looks up providers and patients, and turns replies into entities.

## Files

- `optional.dfy`: `Option`, i.e. `nil` where a lookup finds nothing.
- `ruby_hash.dfy`: Ruby's insertion-ordered `Hash` as a list of pairs.
  - `Lookup` is `[]`, `Without` is `delete` and `Store` is `[]=`.
  - `SameHash` is `Hash#==`, which ignores order.
  - `Table` is a hash object that a method changes in place.
- `ruby_string.dfy`: the String operations the client uses.
  - `split`, which drops trailing empty pieces.
  - Integer `to_s` and ASCII `downcase`.
  - `join`, which the client does not call; it is the inverse used to state what `split` gives.
  - The white-space class behind `blank?`.
- `schema.dfy`: the class hierarchy and what each class declares.
  - Each class's own attribute registry.
  - The settable fields, which include inherited ones.
  - `save_method`.
- `myrxx.dfy`: values, hydration, serialisation, requests and replies, and the `Entity` and `Api` classes.

## How the model is built

- **Values.** A Ruby value is `Value`. A hash key is a symbol (`Sym`) or a string (`Str`). Both reach the same setter, but they are different keys.
- **Entities.**
  - An entity is an `Entity` object. It holds its class, its `Api` (persistent classes only), its instance variables as a `map`, and the persistent `@errors`.
  - The hydration and serialisation methods are proved against the pure functions `Hydrate` and `Serialize`. The properties of those functions are proved as lemmas.
- **The network.** It is not modelled.
  - An operation that talks to the server takes the server's `Reply` as a parameter: a parsed body, an error status with the body's `message`, or a connection failure.
  - It returns the `Request` it would send next to its result. Logins take the token the exchange issues, or the exception it raises.
- **Exceptions.** A Ruby exception is a `RubyError` inside an `Outcome`.

In several places the code behaves differently from what a reader might expect. Two of these points contradict a comment in the code. `patient_prescriptions` is commented as returning an array of prescriptions. `create_patient` is commented as returning the saved patient, but a failed save makes it return the error lines. The model follows the code in each of them:

- `Provider#to_hash` always emits `user_attributes`, even as `{}`.
- The registry of `Patient` does not contain `id`, so a patient's `to_hash` never holds it, although `id` is settable.
- A successful `save` never clears `@errors`.
- A failed `save` returns the array of error lines.
- `patient_prescriptions` returns the parsed list, not Prescriptions (see Findings).
- `get` turns every failure into `nil`, so a failed GET surfaces as a `NoMethodError` for `parsed`.

## Model

| member | source | states |
|---|---|---|
| Schema.Registry | lib/myrxx/myrxx.rb:39-126 | each class's own declared fields, in declaration order; no field is declared twice |
| Schema.SettableIsInherited | lib/myrxx/myrxx.rb:11-16 | a field has a setter on a class exactly when the class or one of its ancestors declares it |
| Schema.PatientIdIsInherited | lib/myrxx/myrxx.rb:59-89 | `id` is settable on a Patient but is not in Patient's own registry |
| Schema.QualifiedNameSplit | lib/myrxx/myrxx.rb:62-64 | splitting `MyRxx::<short>` on `::` gives the module and the short name |
| Schema.SaveMethod | lib/myrxx/myrxx.rb:62-64 | the delegate is the lower-cased short class name followed by `_update` |
| Schema.PatientSavesThroughPatientUpdate | lib/myrxx/myrxx.rb:62-64 | a Patient saves through `patient_update` |
| Schema.Subclasses | lib/myrxx/myrxx.rb:10-126 | only `ApiPersistentObject` has a subclass, `Patient`; Provider, Patient and Prescription have none |
| RubyString.SplitLines | lib/myrxx/myrxx.rb:79 | the error lines hold no line break and none is empty at the end; joined with line breaks they give back a message that does not end in one |
| RubyString.JoinSplitAll | lib/myrxx/myrxx.rb:79 | joining the pieces of a split with the separator gives back the string |
| RubyString.JoinCons | lib/myrxx/myrxx.rb:79 | joining a first part in front of more parts puts the separator between it and their join |
| RubyString.JoinGlue | lib/myrxx/myrxx.rb:79 | extending the first part by a character puts that character in front of the join |
| MyRxx.AssignLastWrite | lib/myrxx/myrxx.rb:22-24 | when every key has a setter, hydration succeeds; each field ends with the value of the last key naming it (symbol or string); other fields keep their values |
| MyRxx.AssignStopsAtUnknown | lib/myrxx/myrxx.rb:22-24 | the first key without a setter raises; the keys before it stay assigned and none after it is |
| MyRxx.AssignSucceeds | lib/myrxx/myrxx.rb:22-24 | hydration raises exactly when some key has no setter |
| MyRxx.AssignOnlySettable | lib/myrxx/myrxx.rb:22-24 | hydration only sets fields that have a setter; the key it stops at has none |
| MyRxx.HydrateRegistryKeys | lib/myrxx/myrxx.rb:22-24 | a hash of registered symbol keys sets exactly those fields to its values |
| MyRxx.Entity.AssignAll | lib/myrxx/myrxx.rb:22-24 | the setter loop leaves the instance variables and the stopping key that `Assign` describes; `errors` is untouched |
| MyRxx.FieldsHashShape | lib/myrxx/myrxx.rb:26-28 | the base `to_hash` holds exactly the class's registered fields, each under its symbol with its current value (`nil` if unset), with no key repeated |
| MyRxx.SerializeOwnFields | lib/myrxx/myrxx.rb:26-36 | outside Provider, `to_hash` holds the class's own registered fields minus `id` for persistent classes, in declaration order, with no inherited field |
| MyRxx.PatientSerialization | lib/myrxx/myrxx.rb:71-89 | a Patient serialises exactly `first_name`, `last_name`, `email`, `is_connected`, `external_id` in that order, and never `id` |
| MyRxx.Entity.ToHash | lib/myrxx/myrxx.rb:26-28 | the loops build exactly `Serialize` of the class and the current fields |
| MyRxx.Entity.FieldsToHash | lib/myrxx/myrxx.rb:26-28 | the loop over the registry builds exactly the base `to_hash`, one entry per registered field in order |
| MyRxx.PersistentReadsId | lib/myrxx/myrxx.rb:59-73 | a persistent class can set `id` and is no Provider |
| MyRxx.PersistentSerializationHasNoId | lib/myrxx/myrxx.rb:71-73 | the hash of a persistent entity never holds `id` |
| MyRxx.DropKeysLookup | lib/myrxx/myrxx.rb:49-50 | deleting the user fields removes exactly those symbol keys and keeps keys unique |
| MyRxx.UserAttributesLookup | lib/myrxx/myrxx.rb:48-53 | the nested hash holds a named field exactly when its value is not blank, with that value, and no key twice |
| MyRxx.NestUserAttributesShape | lib/myrxx/myrxx.rb:46-56 | nesting sets `user_attributes`, removes the three user fields and keeps every other key's value |
| MyRxx.DeleteFields | lib/myrxx/myrxx.rb:49-53 | deleting distinct names one by one leaves the hash without them and collects the non-blank values deleted, in order |
| MyRxx.MoveUserFields | lib/myrxx/myrxx.rb:46-56 | the `tap` block turns the base hash into exactly the nested Provider hash |
| MyRxx.NestedUserFields | lib/myrxx/myrxx.rb:46-56 | after nesting, no user field is a top-level key and `user_attributes` holds the collected fields |
| MyRxx.ProviderSerialization | lib/myrxx/myrxx.rb:46-56 | a Provider's hash has no top-level user fields and always has `user_attributes` |
| MyRxx.ProviderOtherFields | lib/myrxx/myrxx.rb:46-56 | a Provider's other registered fields keep their current values |
| MyRxx.ProviderUserAttributes | lib/myrxx/myrxx.rb:48-53 | `user_attributes` holds exactly the non-blank among first name, last name and email, with their values |
| MyRxx.NormaliseStepShape | lib/myrxx/myrxx.rb:93-95 | one alias round deletes the alias; a truthy value replaces `:is_connected`; other keys keep their values |
| MyRxx.ConnectedNormalisation | lib/myrxx/myrxx.rb:91-98 | both alias keys leave the caller's hash; a truthy alias value overrides `:is_connected` (the string alias wins); a nil or false one is dropped; nothing else changes |
| MyRxx.NormaliseInPlace | lib/myrxx/myrxx.rb:92-96 | the loop changes the caller's hash to `NormaliseConnected` of it |
| MyRxx.PatientConnectedField | lib/myrxx/myrxx.rb:91-98 | for any hash that does not hold `is_connected` as both a symbol and a string: after hydrating a Patient, `is_connected` holds the truthy string alias value, else the truthy symbol alias value, else the hash's own `is_connected` (symbol or string key), else the old value |
| MyRxx.ConnectedLastValue | lib/myrxx/myrxx.rb:91-98 | the last entry naming `is_connected` in the normalised hash carries exactly that value |
| MyRxx.ConnectedLast | lib/myrxx/myrxx.rb:92-95 | when the hash lacks `:is_connected` and an alias is truthy, `:is_connected` is appended last, after any string `"is_connected"` |
| MyRxx.StepKeepsConnectedLast | lib/myrxx/myrxx.rb:93-95 | one alias round keeps `:is_connected` last, or puts it last when it was missing and the alias is truthy |
| MyRxx.StringKeyedConnected | lib/myrxx/myrxx.rb:91-98 | a string-keyed hash `{"is_connected" => false, "is_connected?" => true}`, as a JSON reply has, hydrates a Patient with `is_connected` true |
| MyRxx.StringKeyedNormalised | lib/myrxx/myrxx.rb:92-96 | the alias loop turns that hash into `{"is_connected" => false, :is_connected => true}` |
| MyRxx.LastValueOfKey | lib/myrxx/myrxx.rb:22-24 | where only one key spells a field, the last write to the field is the value under that key |
| MyRxx.AssignFieldLastWrite | lib/myrxx/myrxx.rb:22-24 | one field ends with the value of the last key naming it, or keeps its old value |
| RubyHash.WithoutSnoc | lib/myrxx/myrxx.rb:93 | `delete` of another key keeps the last entry last |
| RubyHash.StoreLast | lib/myrxx/myrxx.rb:94 | `[]=` on the last key replaces its value in place |
| MyRxx.ConnectedAliasSpellings | lib/myrxx/myrxx.rb:91-98 | a truthy value under either alias hydrates like `:is_connected`; a falsy alias value changes nothing |
| MyRxx.ExtractWorkoutShape | lib/myrxx/myrxx.rb:113-114 | the workout is taken from `:workout` if truthy, else from `"workout"`; those keys leave the copy and every other entry stays |
| MyRxx.TakeWorkout | lib/myrxx/myrxx.rb:113-114 | the deletions change the copied hash and yield the workout exactly as `ExtractWorkout` describes |
| MyRxx.AttachWorkout | lib/myrxx/myrxx.rb:116 | attaching a workout keeps the other fields; it can fail only by a type mismatch or a missing setter |
| MyRxx.Entity.AttachWorkoutValue | lib/myrxx/myrxx.rb:116 | a nil or false workout changes nothing; a hash the Workout accepts is stored as a fresh Workout object; otherwise the exception of `Workout.new` |
| MyRxx.Hydrate | lib/myrxx/myrxx.rb:18-24 | hydration fails only by a type mismatch or a `NoMethodError` for a missing setter, never by an OAuth2 error |
| MyRxx.PrescriptionWorkout | lib/myrxx/myrxx.rb:112-117 | the other fields are assigned without the workout entry; hydration succeeds iff they all have setters and a truthy workout is a hash whose keys Workout accepts; a Workout is built iff the workout is truthy and nothing raised |
| MyRxx.PrescriptionNoWorkout | lib/myrxx/myrxx.rb:114-116 | a nil or false workout leaves the `workout` field as it was |
| MyRxx.Entity.SetAttributes | lib/myrxx/myrxx.rb:91-98 | the instance ends in the state `Hydrate` describes; a Workout it builds is fresh; the caller's hash is normalised for a Patient and untouched otherwise; `errors` is untouched |
| MyRxx.Entity.SetPrescriptionAttributes | lib/myrxx/myrxx.rb:112-117 | a Prescription on a copied hash ends as `Hydrate` describes; the Workout under `workout` is a fresh object holding the nested fields |
| MyRxx.Entity.New | lib/myrxx/myrxx.rb:18-20 | a fresh instance is in the state `Construct` describes, with `errors` nil; it raises exactly the exception hydration raises |
| MyRxx.Entity.constructor | lib/myrxx/myrxx.rb:66-69 | a new entity stores its class and its `Api` and has no fields and no errors |
| MyRxx.RoundTrip | lib/myrxx/myrxx.rb:18-28 | for Office, Workout, PrescribeRedirect, Patient and Prescription (nil workout), a hash of exactly the registered fields hydrates without error and `to_hash` gives back an equal Ruby hash |
| MyRxx.RoundTripOfEntries | lib/myrxx/myrxx.rb:18-28 | hydrating all the registered entries, or all but a nil workout, and serialising again gives an equal Ruby hash |
| MyRxx.ObjectRoundTrip | lib/myrxx/myrxx.rb:18-28 | object to hash to object: an Office, Workout, PrescribeRedirect, Patient or Prescription (falsy workout) re-hydrated from its own `to_hash` raises nothing and reads every registered field as before; the workout comes back `nil` |
| MyRxx.PlainObjectRoundTrip | lib/myrxx/myrxx.rb:18-28 | that round trip for Office, Workout and PrescribeRedirect |
| MyRxx.PatientObjectRoundTrip | lib/myrxx/myrxx.rb:88-98 | that round trip for a Patient: its `to_hash` holds no alias key, so normalisation changes nothing |
| MyRxx.PrescriptionObjectRoundTrip | lib/myrxx/myrxx.rb:109-117 | that round trip for a Prescription with a falsy workout, which comes back `nil` |
| MyRxx.WorkoutObjectBreaksRoundTrip | lib/myrxx/myrxx.rb:112-116 | a Prescription whose workout is a Workout object, or any truthy value that is not a hash, raises `TypeMismatch` when re-hydrated from its own `to_hash` |
| MyRxx.ProviderRehydrationRaises | lib/myrxx/myrxx.rb:46-56 | a Provider re-hydrated from its own `to_hash` raises NoMethodError for `user_attributes=`, after reading back every field other than the user fields |
| MyRxx.SerialisedKeys | lib/myrxx/myrxx.rb:26-73 | outside Provider, `to_hash` has unique symbol keys naming registered fields, and every registered field with its reading |
| MyRxx.AssignSerialised | lib/myrxx/myrxx.rb:22-24 | hydrating a fresh instance from such a hash reads back the fields it holds |
| MyRxx.ProviderSerialisedSplit | lib/myrxx/myrxx.rb:46-56 | `Provider#to_hash` is the hash without the user fields, followed by `user_attributes` |
| MyRxx.ProviderTopLevel | lib/myrxx/myrxx.rb:46-56 | the top level holds the registered fields other than the user fields, with their readings, and no other key |
| MyRxx.UserAttributesUnsettable | lib/myrxx/myrxx.rb:44 | a Provider has no `user_attributes=` setter |
| MyRxx.SameLookups | lib/myrxx/myrxx.rb:22-28 | a hash that reads back the fields the entries set finds the same value under every key as the original hash |
| MyRxx.Entity.Save | lib/myrxx/myrxx.rb:75-81 | a non-persistent entity, a missing `Api` or missing delegate raises `NoMethodError`; an OAuth2 error sets `errors` to the message's lines and returns them with fields unchanged; other exceptions propagate; on success the patient is re-hydrated, returned, and `errors` is kept |
| MyRxx.Entity.SaveThroughApi | lib/myrxx/myrxx.rb:75-81 | through `patient_update`: an OAuth2 error sets `errors` to the message's lines and returns them; other exceptions propagate; a reply re-hydrates the entity and keeps `errors` |
| MyRxx.SaveRequest | lib/myrxx/myrxx.rb:198-207 | a save sends a request iff there is a token; it PUTs to `patients/<id>` iff the id is truthy, else POSTs to `api/v2/patients`; the only parameter is `patient`, the serialisation, which holds no `id` |
| MyRxx.Api.PatientUpdate | lib/myrxx/myrxx.rb:198-209 | the request sent is `UpdateSent`; an exception before a reply's `"patient"` hash is reached leaves the patient unchanged; a reply re-hydrates the patient as `Hydrate` describes, which may raise part-way with the earlier keys already assigned; the patient is returned when hydration succeeds |
| MyRxx.ValidationMessagesSplit | lib/myrxx/myrxx.rb:79 | a two-line validation message becomes the two expected error lines |
| MyRxx.ServerUrl | lib/myrxx/myrxx.rb:130-134 | the local URL iff mode is `local`, the test URL iff mode is `test`, the production URL otherwise (no mode included) |
| MyRxx.Api.constructor | lib/myrxx/myrxx.rb:129-138 | the server URL is `ServerUrl` of the mode; no token is held yet |
| MyRxx.Api.LoginWithAccessToken | lib/myrxx/myrxx.rb:140-142 | the token is the one built from the given hash |
| MyRxx.Api.LoginWithPassword | lib/myrxx/myrxx.rb:144-146 | the grant uses the provider's email and the password; the token is replaced only when one is issued |
| MyRxx.CredentialsGrant | lib/myrxx/myrxx.rb:148-154 | empty username and password; `office` (the office's hash) iff the application code is blank, otherwise `office_code`; `provider` always |
| MyRxx.Api.LoginWithoutPassword | lib/myrxx/myrxx.rb:148-154 | the grant is `CredentialsGrant` of the office's code and the two serialisations; a reader error stops it; the token is replaced only when one is issued |
| MyRxx.PathForJoin | lib/myrxx/myrxx.rb:257-261 | a path is `api`, `v2` and the parts joined with `/` |
| MyRxx.PathForSplit | lib/myrxx/myrxx.rb:257-261 | splitting a path of slash-free parts on `/` gives back `api`, `v2` and the parts |
| MyRxx.PathForInjective | lib/myrxx/myrxx.rb:257-261 | different slash-free parts give different paths |
| MyRxx.PathSegmentsFree | lib/myrxx/myrxx.rb:257-259 | `api`, `v2` and slash-free parts are all slash-free |
| MyRxx.PathForOne | lib/myrxx/myrxx.rb:257-261 | a one-part path is `api/v2/` and the part |
| MyRxx.PathForTwo | lib/myrxx/myrxx.rb:257-261 | a two-part path is `api/v2/`, the first part, `/` and the second part |
| MyRxx.PatientsPath | lib/myrxx/myrxx.rb:181-184 | the patients route is `api/v2/patients` |
| MyRxx.FindPath | lib/myrxx/myrxx.rb:214-222 | the search route is `api/v2/patients/find` |
| MyRxx.OfficePath | lib/myrxx/myrxx.rb:161-163 | the office route is `api/v2/office` |
| MyRxx.Fetched | lib/myrxx/myrxx.rb:241-243 | a GET result is usable iff there is a token and a successful reply; anything else ends in `NoMethodError` for `parsed` |
| MyRxx.ExistsOutcome | lib/myrxx/myrxx.rb:166-178 | true iff the server replied, false iff it answered 404; any other failure is re-raised unchanged |
| MyRxx.Api.ProviderExists | lib/myrxx/myrxx.rb:166-178 | sends GET `providers/exists` with email and client credentials; the answer is `ExistsOutcome` |
| MyRxx.Api.RequiresPassword | lib/myrxx/myrxx.rb:156-158 | asks whether the provider's email exists; a reader error raises before any request |
| MyRxx.LookupRequest | lib/myrxx/myrxx.rb:211-225 | a hash query GETs `api/v2/patients/find` with the hash as parameters; anything else GETs `patients/<id>` without parameters |
| MyRxx.SearchAndIdRoutesDiffer | lib/myrxx/myrxx.rb:221-224 | a search and an id lookup never share a path unless the id reads `find` or holds a slash |
| MyRxx.SavedWhereFetched | lib/myrxx/myrxx.rb:205-223 | a patient with an integer id is saved to the same path it is fetched from, `api/v2/patients/<id>` |
| MyRxx.PrescriptionsPathExample | lib/myrxx/myrxx.rb:233-236 | the prescriptions of patient 42 are fetched from `api/v2/patients/42/prescriptions` |
| MyRxx.IntToS42 | lib/myrxx/myrxx.rb:259 | `42` is interpolated as `"42"` |
| MyRxx.Api.Patient | lib/myrxx/myrxx.rb:211-225 | the request is `LookupRequest`; the result is a fresh Patient of this `Api` in the state `Construct` gives for `reply["patient"]`, or the exception on the way |
| MyRxx.BuildFetched | lib/myrxx/myrxx.rb:221-224 | `cls.new(get(...).parsed[key])`: a fresh instance in the state `Construct` gives, or the exception on the way |
| MyRxx.HydrateEach | lib/myrxx/myrxx.rb:180-186 | a successful list hydration has one hydration per element |
| MyRxx.HydrateEachAllOk | lib/myrxx/myrxx.rb:180-186 | when every element succeeds, the list has the hydration of each element, in element order |
| MyRxx.HydrateEachFirstFailure | lib/myrxx/myrxx.rb:180-186 | the first failing element decides the exception |
| MyRxx.BuildOne | lib/myrxx/myrxx.rb:184 | one element: raises iff `item[key]` fails or its hydration raises; otherwise a fresh entity in that state |
| MyRxx.BuildEach | lib/myrxx/myrxx.rb:180-186 | the loop builds one fresh entity per element in order, each realising `HydrateEach`'s entry, or raises its exception |
| MyRxx.Api.Patients | lib/myrxx/myrxx.rb:180-186 | GETs `api/v2/patients`; its Patients correspond one to one, in order, to the listed elements |
| MyRxx.Api.GetOffice | lib/myrxx/myrxx.rb:160-164 | GETs `api/v2/office`; the result is an Office built from `reply["office"]` |
| MyRxx.Api.PrescribePatient | lib/myrxx/myrxx.rb:227-231 | GETs `patients/<id>/prescriptions/new`; the result is a PrescribeRedirect from `reply["prescriberedirect"]` |
| MyRxx.Api.NewPatient | lib/myrxx/myrxx.rb:188-191 | an unsaved fresh Patient of this `Api` with the fields `Construct` gives |
| MyRxx.Api.CreatePatient | lib/myrxx/myrxx.rb:193-196 | a hydration error raises before any request; otherwise the result is what `save` of the new Patient returns |
| MyRxx.PrescriptionsAsWrittenReturnsBody | lib/myrxx/myrxx.rb:236 | whenever `patient_prescriptions` as written succeeds, it returns the reply's parsed body |
| MyRxx.PrescriptionsAsWrittenExample | lib/myrxx/myrxx.rb:233-237 | for one listed prescription, the result is the raw list `[{"prescription" => {}}]` |
| MyRxx.Api.PatientPrescriptions | lib/myrxx/myrxx.rb:233-237 | GETs `patients/<id>/prescriptions`; the result is one fresh Prescription per element, in order, each as `HydrateEach` describes |
| Schema.Superclass | lib/myrxx/myrxx.rb:10-126 | definition: the superclass each class definition names |
| Schema.IsA | lib/myrxx/myrxx.rb:10-126 | definition: a class is itself or inherits from the other |
| Schema.Settable | lib/myrxx/myrxx.rb:11-16 | definition: the accessors of a class, its own registry and those of its ancestors |
| Schema.IsPersistent | lib/myrxx/myrxx.rb:59 | definition: the class is `ApiPersistentObject` or a subclass |
| Schema.ShortName | lib/myrxx/myrxx.rb:10-126 | definition: the class name as written in its definition |
| Schema.Name | lib/myrxx/myrxx.rb:62-63 | definition: `Class#name`, the short name qualified by `MyRxx::` |
| MyRxx.Truthy | lib/myrxx/myrxx.rb:93-95 | definition: every value except `nil` and `false` is true in a condition |
| MyRxx.Blank | lib/myrxx/myrxx.rb:50 | definition: ActiveSupport's `blank?` on the values a reply can hold |
| MyRxx.Get | lib/myrxx/myrxx.rb:13 | definition: an `attr_accessor` reader gives `nil` for a field never set |
| MyRxx.Read | lib/myrxx/myrxx.rb:204-205 | definition: calling a reader raises `NoMethodError` when the class has no such accessor |
| MyRxx.Assign | lib/myrxx/myrxx.rb:22-24 | definition: `values.each {\|k, v\| send("#{k}=", v) }`, stopping at the first key without a setter |
| MyRxx.Construct | lib/myrxx/myrxx.rb:18-20 | definition: `new(values)` hydrates a fresh instance; a value that is not a hash raises |
| MyRxx.FieldsHash | lib/myrxx/myrxx.rb:26-28 | definition: `ApiObject#to_hash`, each registered field under its symbol with the reader's value |
| MyRxx.DropKeys | lib/myrxx/myrxx.rb:49-50 | definition: the hash after deleting each name in turn |
| MyRxx.UserAttributes | lib/myrxx/myrxx.rb:48-53 | definition: the non-blank deleted values, in the order of the names |
| MyRxx.NestUserAttributes | lib/myrxx/myrxx.rb:46-56 | definition: `Provider#to_hash` applied to the base hash |
| MyRxx.Serialize | lib/myrxx/myrxx.rb:26-73 | definition: `to_hash` as the receiver's class resolves it |
| MyRxx.NormaliseStep | lib/myrxx/myrxx.rb:93-95 | definition: one round of the alias loop |
| MyRxx.Normalise | lib/myrxx/myrxx.rb:92-96 | definition: the alias loop over a prefix of the aliases |
| MyRxx.NormaliseConnected | lib/myrxx/myrxx.rb:91-96 | definition: the whole alias loop of `Patient#attributes=` |
| MyRxx.ExtractWorkout | lib/myrxx/myrxx.rb:113-114 | definition: `values.delete(:workout) \|\| values.delete("workout")` on the copy |
| MyRxx.PathFor | lib/myrxx/myrxx.rb:257-261 | definition: `path_for`, each part appended after a slash |
| MyRxx.ToS | lib/myrxx/myrxx.rb:259 | definition: string interpolation of a value |
| MyRxx.Inspect | lib/myrxx/myrxx.rb:259 | definition: `inspect` of an array or hash, which interpolation uses |
| MyRxx.Index | lib/myrxx/myrxx.rb:221-224 | definition: `v["key"]` on the values a reply can hold |
| MyRxx.Delivered | lib/myrxx/myrxx.rb:245-251 | definition: `post`/`put` then `parsed`; an error status raises `OAuth2::Error` |
| MyRxx.FetchedEntry | lib/myrxx/myrxx.rb:241-243 | definition: `get(...).parsed[key]` |
| MyRxx.Elements | lib/myrxx/myrxx.rb:184 | definition: what `parsed.each` iterates |
| MyRxx.Listed | lib/myrxx/myrxx.rb:180-186 | definition: the elements of a fetched list |
| MyRxx.ExistsRequest | lib/myrxx/myrxx.rb:170 | definition: the `providers/exists` request with email and client credentials |
| MyRxx.UpdateRequest | lib/myrxx/myrxx.rb:204-207 | definition: PUT `patients/<id>` for a truthy id, else POST `patients`, with the serialisation under `patient` |
| MyRxx.UpdateSent | lib/myrxx/myrxx.rb:198-207 | definition: the request `patient_update` sends, none without an `id` reader or a token |
| MyRxx.UpdateReceived | lib/myrxx/myrxx.rb:198-208 | definition: the hash under `"patient"` in the reply, or the exception raised before it |
| MyRxx.Lines | lib/myrxx/myrxx.rb:79 | definition: the error lines as the Ruby array `save` returns |
| MyRxx.PrescriptionsAsWritten | lib/myrxx/myrxx.rb:233-237 | definition: `patient_prescriptions` as written, returning the receiver of `each` (the as-written half of the finding) |

## Left out

- HTTP and OAuth2 transport: `OAuth2::Client`, `password.get_token`, `AccessToken.from_hash` and the access token's verbs. A reply is an input and a request is an output. The token is kept only as the hash or outcome given.
- `JSON.parse` of an error body: an error reply carries its `message` string directly. A body without a string `message` is not modelled.
- The private `delete` helper: nothing in the client calls it.
- Ruby metaprogramming: `attr_accessor` and `send`. The registry and the setters are the fixed tables of `schema.dfy`. So duplicate registry entries and reachable unrelated setters (such as `attributes=` itself) are not modelled.
- Arguments to `attributes=` that are not hashes: they all raise `TypeMismatch`. Ruby would iterate an array of pairs, and fail differently on other values.
- Floats and other JSON values beyond nil, booleans, integers, strings, arrays and hashes.
- `Patient#prescribe` and `Patient#prescriptions`: they forward to `prescribe_patient` and `patient_prescriptions`, which are modelled.
- Aliasing of the caller's hash:
  - `Entity.New` hydrates from a fresh copy of the hash value.
  - So the in-place deletion of `Patient#attributes=` is not visible to the caller of `Patient.new`, `patient` and `patients`.
  - It is observable through `Entity.SetAttributes`, which takes the caller's hash object.
- Failures other than an HTTP error status: they are one `Transport` error. `provider_exists?` re-raises it, and `Fetched` turns it into `nil`. The `rescue` branch of `provider_exists?` for errors with a `nil` response is not modelled.
- Ruby 3.4's `inspect` format: `Inspect` produces the older `{:key=>value}` notation, used when a hash is interpolated into a path.
- `Inspect` does not escape quotes, backslashes or control characters inside strings as Ruby's `inspect` does.
- `Inspect` and `ToS` render an object as `#<MyRxx::Name>`. Ruby adds the object's address, and `inspect` also lists its instance variables. Object addresses are not modelled.
- MyRxx.ObjectRoundTrip: requires a Prescription's `workout` to be falsy, and a `false` workout comes back `nil`. A Prescription holding a Workout object does not survive the object-to-hash-to-object round trip: `to_hash` emits the object itself, and re-hydrating it raises `TypeMismatch` (`MyRxx.WorkoutObjectBreaksRoundTrip`). The model follows the code there.
- MyRxx.PatientConnectedField: does not cover a hash holding both `:is_connected` and `"is_connected"`. There the assignment order of the two keys decides the field, and `AssignFieldLastWrite` still describes it.
- Unicode case mapping: `Downcase` maps only ASCII letters. Class names are ASCII.
- Concurrency and the live-server tests.

## Findings

| source | as written | input that shows it | evidently intended | confidence | as-written member | corrected member |
|---|---|---|---|---|---|---|
| lib/myrxx/myrxx.rb:236 | `get(...).parsed.each {\|hash\| Prescription.new hash["prescription"] }` returns the parsed array, because `each` returns its receiver; the Prescriptions built are discarded | a reply whose parsed body is `[{"prescription" => {}}]`: the result is that array, not a Prescription | return the Prescriptions, as `patients` does with `tap` and `<<` | not executed | MyRxx.PrescriptionsAsWrittenExample | MyRxx.Api.PatientPrescriptions |
