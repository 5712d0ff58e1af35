/**
  The patient-record store: the table of default post-operative instructions,
  the fill rule that `User.save` applies when a record is first added, the
  record store with its two uniqueness constraints, and the manager methods
  that create ordinary users and superusers.

  Translated texts are opaque strings: each default text is kept as the source
  string that the translation mechanism is keyed by.
*/
module Models {
  import opened Wrappers

  // ---------------------------------------------------------------------------
  // Instructions and the default table
  // ---------------------------------------------------------------------------

  /** The six free-text instruction fields of a patient record. */
  datatype Instructions = Instructions(
    warningSigns: string,
    medicationInstructions: string,
    nextVisit: string,
    outpatientServices: string,
    selfCareRecommendations: string,
    nutrition: string)

  /** Names the six instruction fields, so that properties can range over all of them. */
  datatype InstructionField =
    | WarningSigns
    | MedicationInstructions
    | NextVisit
    | OutpatientServices
    | SelfCareRecommendations
    | Nutrition

  /** The text of field `f` in `ins`. */
  function Field(ins: Instructions, f: InstructionField): string
  {
    match f
    case WarningSigns => ins.warningSigns
    case MedicationInstructions => ins.medicationInstructions
    case NextVisit => ins.nextVisit
    case OutpatientServices => ins.outpatientServices
    case SelfCareRecommendations => ins.selfCareRecommendations
    case Nutrition => ins.nutrition
  }

  /** Every instruction field empty: the model's field defaults (`default=''`). */
  const Blank: Instructions := Instructions("", "", "", "", "", "")

  /** The static per-surgery-type table of default instruction texts. */
  const DefaultInstructions: map<string, Instructions> := map[
    "intertro" := Instructions(
      "تب، درد قفسه سینه، تنگی نفس",
      "روزانه داروهای رقیق‌کننده خون مصرف کنید.",
      "بعد از 1 ماه.",
      "بررسی‌های منظم ECG.",
      "از استرس دوری کنید و غذای کم چرب مصرف کنید.",
      "مصرف امگا ۳ را افزایش دهید."),
    "brain" := Instructions(
      "سرگیجه، سردرد شدید، حالت تهوع",
      "داروهای تجویزی مسکن مصرف کنید.",
      "بعد از ۲ هفته.",
      "MRI در صورت ادامه علائم.",
      "از استفاده بیش از حد از صفحه نمایش خودداری کنید.",
      "غذاهای مغزی مانند گردو و ماهی مصرف کنید.")
  ]

  /**
    The defaults looked up in `table` for a surgery type: its entry, or, for a
    type the table does not know, an empty entry from which every field reads `''`.
    The table is a parameter; `DefaultInstructions` is the one the system uses.
  */
  function DefaultsFor(table: map<string, Instructions>, surgeryType: string): Instructions
  {
    if surgeryType in table then table[surgeryType] else Blank
  }

  // ---------------------------------------------------------------------------
  // The fill rule of User.save
  // ---------------------------------------------------------------------------

  /** The fill runs only while the record is being added and its surgery type is set (not None, not ''). */
  predicate FillApplies(adding: bool, surgeryType: Option<string>)
  {
    adding && surgeryType.Some? && surgeryType.value != ""
  }

  /** Each blank field takes the matching default; a non-blank field is kept. */
  function FillBlanks(current: Instructions, defaults: Instructions): (r: Instructions)
    ensures forall f :: Field(current, f) != "" ==> Field(r, f) == Field(current, f)
    ensures forall f :: Field(current, f) == "" ==> Field(r, f) == Field(defaults, f)
  {
    Instructions(
      if current.warningSigns == "" then defaults.warningSigns else current.warningSigns,
      if current.medicationInstructions == "" then defaults.medicationInstructions else current.medicationInstructions,
      if current.nextVisit == "" then defaults.nextVisit else current.nextVisit,
      if current.outpatientServices == "" then defaults.outpatientServices else current.outpatientServices,
      if current.selfCareRecommendations == "" then defaults.selfCareRecommendations else current.selfCareRecommendations,
      if current.nutrition == "" then defaults.nutrition else current.nutrition)
  }

  /** The six instruction fields as `User.save` leaves them. */
  function SavedInstructions(table: map<string, Instructions>, adding: bool, surgeryType: Option<string>, current: Instructions): Instructions
  {
    if FillApplies(adding, surgeryType) then FillBlanks(current, DefaultsFor(table, surgeryType.value)) else current
  }

  /** Adding a record of a surgery type the table knows fills every blank field from that type's entry. */
  lemma FillUsesTable(table: map<string, Instructions>, current: Instructions, surgeryType: string, f: InstructionField)
    requires surgeryType in table && surgeryType != ""
    requires Field(current, f) == ""
    ensures Field(SavedInstructions(table, true, Some(surgeryType), current), f) == Field(table[surgeryType], f)
  {
  }

  /** Whatever the call, a field that was non-blank before saving is unchanged after it. */
  lemma FillNeverOverwrites(table: map<string, Instructions>, adding: bool, surgeryType: Option<string>,
                            current: Instructions, f: InstructionField)
    requires Field(current, f) != ""
    ensures Field(SavedInstructions(table, adding, surgeryType, current), f) == Field(current, f)
  {
  }

  /** On an update, or with no surgery type (None or ''), saving leaves all six fields as they were. */
  lemma FillSkipped(table: map<string, Instructions>, adding: bool, surgeryType: Option<string>, current: Instructions)
    requires !adding || surgeryType.None? || surgeryType == Some("")
    ensures SavedInstructions(table, adding, surgeryType, current) == current
  {
  }

  /** An unknown surgery type is no error: the fill changes nothing, so every blank field stays ''. */
  lemma FillUnknownType(table: map<string, Instructions>, current: Instructions, surgeryType: string)
    requires surgeryType !in table
    ensures SavedInstructions(table, true, Some(surgeryType), current) == current
    ensures forall f :: Field(current, f) == "" ==> Field(SavedInstructions(table, true, Some(surgeryType), current), f) == ""
  {
  }

  /** Saving twice with the same arguments gives what saving once gives. */
  lemma FillIdempotent(table: map<string, Instructions>, adding: bool, surgeryType: Option<string>, current: Instructions)
    ensures var once := SavedInstructions(table, adding, surgeryType, current);
            SavedInstructions(table, adding, surgeryType, once) == once
  {
  }

  /** The system's table has exactly the two entries `intertro` and `brain`. */
  lemma TableKeys()
    ensures DefaultInstructions.Keys == {"intertro", "brain"}
  {
  }

  /** Each entry of the system's table is `intertro` or `brain`, and neither leaves a field blank. */
  lemma TableEntriesNonBlank(surgeryType: string, f: InstructionField)
    requires surgeryType in DefaultInstructions
    ensures surgeryType == "intertro" || surgeryType == "brain"
    ensures Field(DefaultInstructions[surgeryType], f) != ""
  {
  }

  /** A brain-surgery record added with all fields blank gets exactly the brain defaults. */
  lemma BrainAllBlank()
    ensures SavedInstructions(DefaultInstructions, true, Some("brain"), Blank) == DefaultInstructions["brain"]
  {
  }

  /** A brain-surgery record added with custom warning signs keeps them and gets the other five defaults. */
  lemma BrainCustomWarning(custom: string)
    requires custom != ""
    ensures SavedInstructions(DefaultInstructions, true, Some("brain"), Blank.(warningSigns := custom))
         == DefaultInstructions["brain"].(warningSigns := custom)
  {
  }

  /** A record added with a surgery type the system's table does not know keeps all six fields blank. */
  lemma UnknownTypeStaysBlank()
    ensures SavedInstructions(DefaultInstructions, true, Some("unknown_code"), Blank) == Blank
  {
  }

  // ---------------------------------------------------------------------------
  // Records and the uniqueness constraints
  // ---------------------------------------------------------------------------

  /** One stored patient record: every column except the primary key, the password and `last_login`. */
  datatype Record = Record(
    age: Option<nat>,
    daronum: Option<nat>,             // medication tracking code
    firstName: Option<string>,
    lastName: Option<string>,
    nationalId: string,
    phoneNumber: string,
    surgeryType: Option<string>,
    doctor: Option<string>,
    instructions: Instructions,
    isActive: bool,
    isAdmin: bool)

  /** No two rows share a national ID, and no two share a phone number. */
  predicate UniqueIdentities(rows: seq<Record>)
  {
    forall i, j :: 0 <= i < |rows| && 0 <= j < |rows| && i != j ==>
      rows[i].nationalId != rows[j].nationalId && rows[i].phoneNumber != rows[j].phoneNumber
  }

  /** Some row other than row `skip` has `data`'s national ID or phone number (`skip` out of range: any row). */
  predicate CollidesExcept(rows: seq<Record>, data: Record, skip: int)
  {
    exists i :: 0 <= i < |rows| && i != skip &&
      (rows[i].nationalId == data.nationalId || rows[i].phoneNumber == data.phoneNumber)
  }

  /** Some row has `data`'s national ID or phone number. */
  predicate Collides(rows: seq<Record>, data: Record)
  {
    CollidesExcept(rows, data, -1)
  }

  /** Whether a record collides depends only on its national ID and phone number. */
  lemma CollisionByIdentity(rows: seq<Record>, a: Record, b: Record, skip: int)
    requires a.nationalId == b.nationalId && a.phoneNumber == b.phoneNumber
    ensures CollidesExcept(rows, a, skip) <==> CollidesExcept(rows, b, skip)
  {
  }

  /** A record that collides with no row can be appended without breaking uniqueness. */
  lemma AppendKeepsUnique(rows: seq<Record>, data: Record)
    requires UniqueIdentities(rows)
    requires !Collides(rows, data)
    ensures UniqueIdentities(rows + [data])
  {
  }

  /** A record that collides with no row other than row `k` can replace row `k` without breaking uniqueness. */
  lemma ReplaceKeepsUnique(rows: seq<Record>, k: nat, data: Record)
    requires UniqueIdentities(rows)
    requires k < |rows|
    requires !CollidesExcept(rows, data, k)
    ensures UniqueIdentities(rows[k := data])
  {
  }

  /** The position of `id` in `ids`: the first index holding it. */
  function IndexOf(ids: seq<nat>, id: nat): (k: nat)
    requires id in ids
    ensures k < |ids| && ids[k] == id
    ensures forall i :: 0 <= i < k ==> ids[i] != id
  {
    if ids[0] == id then 0 else 1 + IndexOf(ids[1..], id)
  }

  /** Why a store or manager operation failed. */
  datatype Error =
    | MissingNationalId   // create_user given no national ID
    | IntegrityError      // a uniqueness constraint would be broken
    | DoesNotExist        // an update names a primary key that no row has

  // ---------------------------------------------------------------------------
  // The store
  // ---------------------------------------------------------------------------

  /**
    The in-memory table of users. `rows[i]` is the record whose primary key is
    `ids[i]`; keys are handed out in increasing order, so the order of `rows`
    is primary-key order, the order in which an unordered query returns its
    first match.
  */
  class Store {
    var rows: seq<Record>
    var ids: seq<nat>
    var nextId: nat

    ghost predicate Valid()
      reads this
    {
      |ids| == |rows| &&
      UniqueIdentities(rows) &&
      (forall i, j :: 0 <= i < j < |ids| ==> ids[i] < ids[j]) &&
      (forall i :: 0 <= i < |ids| ==> ids[i] < nextId)
    }

    /** The three pieces of the store's state, for saying that an operation left it as it was. */
    ghost function State(): (seq<Record>, seq<nat>, nat)
      reads this
    {
      (rows, ids, nextId)
    }

    constructor ()
      ensures Valid()
      ensures rows == [] && ids == []
    {
      rows, ids, nextId := [], [], 0;
    }

    /** The state after an insert of `data` into the state (rows0, ids0, next0) that returned `r`. */
    ghost predicate InsertedFrom(rows0: seq<Record>, ids0: seq<nat>, next0: nat, data: Record, r: Result<nat, Error>)
      reads this
    {
      (r.Success? <==> !Collides(rows0, data)) &&
      (r.Success? ==>
         r.value == next0 && rows == rows0 + [data] && ids == ids0 + [next0] && nextId == next0 + 1) &&
      (r.Failure? ==>
         r.error == IntegrityError && rows == rows0 && ids == ids0 && nextId == next0)
    }

    /** The state after an update of row `id` to `data` in the state (rows0, ids0, next0) that returned `r`. */
    ghost predicate UpdatedFrom(rows0: seq<Record>, ids0: seq<nat>, next0: nat, id: nat, data: Record, r: Result<nat, Error>)
      reads this
    {
      ids == ids0 && nextId == next0 &&
      (id !in ids0 ==> r == Failure(DoesNotExist) && rows == rows0) &&
      (id in ids0 ==>
         var k := IndexOf(ids0, id);
         (r.Success? <==> !CollidesExcept(rows0, data, k)) &&
         (r.Success? ==> r.value == id && k < |rows0| && rows == rows0[k := data]) &&
         (r.Failure? ==> r.error == IntegrityError && rows == rows0))
    }

    /** INSERT: appends `data` under a fresh primary key, unless its national ID or phone number is taken. */
    method Insert(data: Record) returns (r: Result<nat, Error>)
      requires Valid()
      modifies this
      ensures Valid()
      ensures InsertedFrom(old(rows), old(ids), old(nextId), data, r)
    {
      if Collides(rows, data) {
        r := Failure(IntegrityError);
      } else {
        AppendKeepsUnique(rows, data);
        rows, ids := rows + [data], ids + [nextId];
        r := Success(nextId);
        nextId := nextId + 1;
      }
    }

    /** UPDATE: overwrites the row with primary key `id`, unless another row holds `data`'s national ID or phone number. */
    method Update(id: nat, data: Record) returns (r: Result<nat, Error>)
      requires Valid()
      modifies this
      ensures Valid()
      ensures UpdatedFrom(old(rows), old(ids), old(nextId), id, data, r)
    {
      if id !in ids {
        r := Failure(DoesNotExist);
      } else {
        var k := IndexOf(ids, id);
        if CollidesExcept(rows, data, k) {
          r := Failure(IntegrityError);
        } else {
          ReplaceKeepsUnique(rows, k, data);
          rows := rows[k := data];
          r := Success(id);
        }
      }
    }
  }

  // ---------------------------------------------------------------------------
  // The user object
  // ---------------------------------------------------------------------------

  /** A user (patient) object in memory; `id` is its primary key once it has been inserted. */
  class User {
    var id: Option<nat>
    var age: Option<nat>
    var daronum: Option<nat>
    var firstName: Option<string>
    var lastName: Option<string>
    var nationalId: string
    var phoneNumber: string
    var surgeryType: Option<string>
    var doctor: Option<string>
    var warningSigns: string
    var medicationInstructions: string
    var nextVisit: string
    var outpatientServices: string
    var selfCareRecommendations: string
    var nutrition: string
    var isActive: bool
    var isAdmin: bool

    /** The record this object would store. */
    function Data(): Record
      reads this
    {
      Record(age, daronum, firstName, lastName, nationalId, phoneNumber, surgeryType, doctor,
             Instructions(warningSigns, medicationInstructions, nextVisit, outpatientServices,
                          selfCareRecommendations, nutrition),
             isActive, isAdmin)
    }

    /** A new, unsaved user with the given identity and clinical fields; every other field takes its default. */
    constructor (nationalId: string, phoneNumber: string, surgeryType: Option<string>, doctor: Option<string>)
      ensures id.None?
      ensures Data() == Record(None, None, None, None, nationalId, phoneNumber, surgeryType, doctor,
                               Blank, true, false)
    {
      this.id := None;
      this.age, this.daronum, this.firstName, this.lastName := None, None, None, None;
      this.nationalId, this.phoneNumber := nationalId, phoneNumber;
      this.surgeryType, this.doctor := surgeryType, doctor;
      this.warningSigns, this.medicationInstructions, this.nextVisit := "", "", "";
      this.outpatientServices, this.selfCareRecommendations, this.nutrition := "", "", "";
      this.isActive, this.isAdmin := true, false;
    }

    /**
      Lines 80-93 of `save`: while the record is being added and its surgery
      type is set, fill each blank instruction field from the type's defaults.
    */
    method FillDefaults(table: map<string, Instructions>, adding: bool)
      modifies this`warningSigns, this`medicationInstructions, this`nextVisit
      modifies this`outpatientServices, this`selfCareRecommendations, this`nutrition
      ensures Instructions(warningSigns, medicationInstructions, nextVisit, outpatientServices, selfCareRecommendations, nutrition)
           == SavedInstructions(table, adding, surgeryType,
                                old(Instructions(warningSigns, medicationInstructions, nextVisit, outpatientServices, selfCareRecommendations, nutrition)))
    {
      if adding && surgeryType.Some? && surgeryType.value != "" {
        var defaults := DefaultsFor(table, surgeryType.value);
        if warningSigns == "" {
          warningSigns := defaults.warningSigns;
        }
        if medicationInstructions == "" {
          medicationInstructions := defaults.medicationInstructions;
        }
        if nextVisit == "" {
          nextVisit := defaults.nextVisit;
        }
        if outpatientServices == "" {
          outpatientServices := defaults.outpatientServices;
        }
        if selfCareRecommendations == "" {
          selfCareRecommendations := defaults.selfCareRecommendations;
        }
        if nutrition == "" {
          nutrition := defaults.nutrition;
        }
      }
    }

    /**
      `save`: apply the fill rule, then write the record to `db`, inserting it
      when it has no primary key yet and updating its row otherwise.
    */
    method Save(db: Store, table: map<string, Instructions>, adding: bool) returns (r: Result<nat, Error>)
      requires db.Valid()
      modifies this, db
      ensures db.Valid()
      ensures Data() == old(Data()).(instructions := SavedInstructions(table, adding, old(surgeryType), old(Data().instructions)))
      ensures old(id).None? ==>
                db.InsertedFrom(old(db.rows), old(db.ids), old(db.nextId), Data(), r) &&
                id == (if r.Success? then Some(r.value) else None)
      ensures old(id).Some? ==>
                db.UpdatedFrom(old(db.rows), old(db.ids), old(db.nextId), old(id).value, Data(), r) &&
                id == old(id)
    {
      FillDefaults(table, adding);
      var filled := Data();
      assert filled == old(Data()).(instructions := SavedInstructions(table, adding, old(surgeryType), old(Data().instructions)));
      if id.None? {
        r := db.Insert(filled);
        if r.Success? {
          id := Some(r.value);
        }
      } else {
        r := db.Update(id.value, filled);
      }
      assert Data() == filled;
    }
  }

  // ---------------------------------------------------------------------------
  // The manager
  // ---------------------------------------------------------------------------

  /** The record that `create_user` stores for the given arguments. */
  function NewRecord(table: map<string, Instructions>, nationalId: string, phoneNumber: string,
                     surgeryType: Option<string>, doctor: Option<string>): Record
  {
    Record(None, None, None, None, nationalId, phoneNumber, surgeryType, doctor,
           SavedInstructions(table, true, surgeryType, Blank), true, false)
  }

  /** A freshly created record is active, not an admin, and carries its type's defaults, or no text at all. */
  lemma NewRecordShape(table: map<string, Instructions>, nationalId: string, phoneNumber: string,
                       surgeryType: Option<string>, doctor: Option<string>)
    requires "" !in table
    ensures var rec := NewRecord(table, nationalId, phoneNumber, surgeryType, doctor);
            rec.isActive && !rec.isAdmin &&
            rec.nationalId == nationalId && rec.phoneNumber == phoneNumber &&
            rec.surgeryType == surgeryType && rec.doctor == doctor &&
            rec.instructions == (if surgeryType.Some? && surgeryType.value in table
                                 then table[surgeryType.value] else Blank)
  {
  }

  /** `create_user` and `create_superuser`, writing to the store `db`. */
  class UserManager {
    const db: Store
    const table: map<string, Instructions>

    /** A manager over `db` whose users are filled from `table` (the system passes `DefaultInstructions`). */
    constructor (db: Store, table: map<string, Instructions>)
      ensures this.db == db && this.table == table
    {
      this.db := db;
      this.table := table;
    }

    /**
      Creates a user: refuses a missing or empty national ID, otherwise builds
      the user, saves it as a new record and returns it.
    */
    method CreateUser(nationalId: Option<string>, phoneNumber: string, surgeryType: Option<string>, doctor: Option<string>)
      returns (r: Result<User, Error>)
      requires db.Valid()
      modifies db
      ensures db.Valid()
      ensures (nationalId.None? || nationalId == Some("")) ==>
                r == Failure(MissingNationalId) && db.State() == old(db.State())
      ensures nationalId.Some? && nationalId.value != "" ==>
                var rec := NewRecord(table, nationalId.value, phoneNumber, surgeryType, doctor);
                (r.Success? <==> !Collides(old(db.rows), rec)) &&
                (r.Success? ==>
                   fresh(r.value) && r.value.Data() == rec && r.value.id == Some(old(db.nextId)) &&
                   db.rows == old(db.rows) + [rec] && db.ids == old(db.ids) + [old(db.nextId)] &&
                   db.nextId == old(db.nextId) + 1) &&
                (r.Failure? ==> r.error == IntegrityError && db.State() == old(db.State()))
    {
      if nationalId.None? || nationalId.value == "" {
        return Failure(MissingNationalId);
      }
      var user := new User(nationalId.value, phoneNumber, surgeryType, doctor);
      var saved := user.Save(db, table, true);
      if saved.Success? {
        r := Success(user);
      } else {
        r := Failure(saved.error);
      }
    }

    /**
      Creates a user as `CreateUser` does, then sets its admin flag and saves it
      again; the second save is an update, which cannot collide.
    */
    method CreateSuperuser(nationalId: Option<string>, phoneNumber: string, surgeryType: Option<string>, doctor: Option<string>)
      returns (r: Result<User, Error>)
      requires db.Valid()
      modifies db
      ensures db.Valid()
      ensures (nationalId.None? || nationalId == Some("")) ==>
                r == Failure(MissingNationalId) && db.State() == old(db.State())
      ensures nationalId.Some? && nationalId.value != "" ==>
                var rec := NewRecord(table, nationalId.value, phoneNumber, surgeryType, doctor).(isAdmin := true);
                (r.Success? <==> !Collides(old(db.rows), rec)) &&
                (r.Success? ==>
                   fresh(r.value) && r.value.Data() == rec && r.value.id == Some(old(db.nextId)) &&
                   db.rows == old(db.rows) + [rec] && db.ids == old(db.ids) + [old(db.nextId)] &&
                   db.nextId == old(db.nextId) + 1) &&
                (r.Failure? ==> r.error == IntegrityError && db.State() == old(db.State()))
    {
      r := CreateUser(nationalId, phoneNumber, surgeryType, doctor);
      if r.Failure? {
        if nationalId.Some? && nationalId.value != "" {
          var plain := NewRecord(table, nationalId.value, phoneNumber, surgeryType, doctor);
          CollisionByIdentity(old(db.rows), plain, plain.(isAdmin := true), -1);
        }
        return;
      }
      var user := r.value;
      ghost var before := old(db.rows);
      ghost var k := |before|;
      user.isAdmin := true;
      // The new row is the last one and no earlier row shares its identity pair.
      assert db.ids[k] == user.id.value;
      assert IndexOf(db.ids, user.id.value) == k;
      assert !CollidesExcept(db.rows, user.Data(), k) by {
        forall i | 0 <= i < |db.rows| && i != k
          ensures db.rows[i].nationalId != user.Data().nationalId && db.rows[i].phoneNumber != user.Data().phoneNumber
        {
          assert db.rows[i] == before[i];
        }
      }
      var saved := user.Save(db, table, false);
      assert saved.Success?;
    }
  }
}
