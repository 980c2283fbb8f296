/** The persistence envelope kept under the key "esc:v1": default-on-failure
    load, merge-on-save with the version pinned to 1, clear, export and
    import. JSON text is opaque: `parse` is a partial function from text to
    envelopes and `serialize` its counterpart. */
module Storage {
  import opened Wrappers
  import opened Models

  const StorageKey: string := "esc:v1"

  /** `version` is `None` when the stored object has none (or null). */
  datatype Envelope = Envelope(
    version: Option<int>,
    profile: Option<UserProfile>,
    goals: seq<Goal>,
    settings: Option<UserSettings>)

  const DefaultSettings: UserSettings := UserSettings("turquoise", None)

  const DefaultData: Envelope := Envelope(Some(1), None, [], Some(DefaultSettings))

  /** `{ ...data, version: data.version || 1 }`: a missing or zero version becomes 1. */
  function Migrate(data: Envelope): (r: Envelope)
    ensures r.profile == data.profile && r.goals == data.goals && r.settings == data.settings
    ensures data.version == None || data.version == Some(0) ==> r.version == Some(1)
    ensures data.version != None && data.version != Some(0) ==> r.version == data.version
  {
    data.(version := if data.version == None || data.version == Some(0) then Some(1) else data.version)
  }

  lemma MigrateIdempotent(data: Envelope)
    ensures Migrate(Migrate(data)) == Migrate(data)
    ensures Migrate(data).version != None && Migrate(data).version != Some(0)
  {
  }

  /** The fields a save supplies; `None` leaves the stored value in place. */
  datatype Patch = Patch(
    profile: Option<Option<UserProfile>>,
    goals: Option<seq<Goal>>,
    settings: Option<Option<UserSettings>>)

  /** `{ ...current, ...data, version: 1 }` */
  function Merge(current: Envelope, patch: Patch): (r: Envelope)
    ensures r.version == Some(1)
    ensures r.profile == (if patch.profile.Some? then patch.profile.value else current.profile)
    ensures r.goals == (if patch.goals.Some? then patch.goals.value else current.goals)
    ensures r.settings == (if patch.settings.Some? then patch.settings.value else current.settings)
  {
    Envelope(Some(1), patch.profile.GetOr(current.profile), patch.goals.GetOr(current.goals),
             patch.settings.GetOr(current.settings))
  }

  /** What a load returns for the stored text: the default when nothing (or
      the empty string) is stored or the text does not parse, else the parsed
      envelope with its version fixed. */
  function LoadFrom(stored: Option<string>, parse: string -> Option<Envelope>): (data: Envelope)
    ensures stored == None || stored == Some("") ==> data == DefaultData
    ensures stored.Some? && stored.value != "" && parse(stored.value) == None ==> data == DefaultData
    ensures stored.Some? && stored.value != "" && parse(stored.value).Some? ==>
              data == Migrate(parse(stored.value).value)
  {
    if stored == None || stored.value == "" then DefaultData
    else match parse(stored.value)
      case None => DefaultData
      case Some(parsed) => Migrate(parsed)
  }


  /** The codec carries `e` through: `parse` reads back the text `serialize`
      writes for it, and that text is not empty (as no `JSON.stringify` of an
      object is). Stated per envelope, since it is a fact about the data
      written, not about every conceivable value. */
  predicate RoundTripsAt(parse: string -> Option<Envelope>, serialize: Envelope -> string, e: Envelope)
  {
    serialize(e) != "" && parse(serialize(e)) == Some(e)
  }

  /** Storing an envelope and loading it back gives the envelope with its
      version fixed; text the codec cannot read back loads as the default. */
  lemma LoadAfterStore(e: Envelope, parse: string -> Option<Envelope>, serialize: Envelope -> string)
    ensures RoundTripsAt(parse, serialize, e) ==> LoadFrom(Some(serialize(e)), parse) == Migrate(e)
    ensures parse(serialize(e)) == None ==> LoadFrom(Some(serialize(e)), parse) == DefaultData
  {
  }

  /** Exporting what a load returns and importing that text leaves the next
      load as it was, whenever the codec carries the loaded envelope. */
  lemma ImportOfExport(stored: Option<string>, parse: string -> Option<Envelope>, serialize: Envelope -> string)
    ensures var loaded := LoadFrom(stored, parse);
      RoundTripsAt(parse, serialize, loaded) ==>
        && parse(serialize(loaded)) == Some(loaded)
        && LoadFrom(Some(serialize(Migrate(parse(serialize(loaded)).value))), parse) == loaded
  {
    var loaded := LoadFrom(stored, parse);
    MigrateIdempotent(if stored == None || stored.value == "" || parse(stored.value) == None
                      then DefaultData else parse(stored.value).value);
    assert Migrate(loaded) == loaded;
    LoadAfterStore(loaded, parse, serialize);
  }

  /** The browser's local storage slot for the application's key. `accepts`
      says whether `setItem` takes a text; a refused write (the storage quota
      exceeded) is caught by the source and only logged. */
  class LocalStore {
    var stored: Option<string>
    const parse: string -> Option<Envelope>
    const serialize: Envelope -> string
    const accepts: string -> bool

    constructor(parse: string -> Option<Envelope>, serialize: Envelope -> string, accepts: string -> bool)
      ensures stored == None
      ensures this.parse == parse && this.serialize == serialize && this.accepts == accepts
    {
      stored := None;
      this.parse := parse;
      this.serialize := serialize;
      this.accepts := accepts;
    }

    /** `loadFromStorage()` */
    function LoadFromStorage(): (data: Envelope)
      reads this
      ensures data.version != None && data.version != Some(0)
    {
      MigrateIdempotent(if stored == None || stored.value == "" || parse(stored.value) == None
                        then DefaultData else parse(stored.value).value);
      LoadFrom(stored, parse)
    }

    /** `saveToStorage(patch)`: the current envelope overlaid with the patch,
        written when the browser accepts it; a refused write leaves the slot
        as it was. */
    method SaveToStorage(patch: Patch)
      modifies this
      ensures var updated := Merge(old(LoadFromStorage()), patch);
        && (accepts(serialize(updated)) ==> stored == Some(serialize(updated)))
        && (!accepts(serialize(updated)) ==> stored == old(stored))
      ensures var updated := Merge(old(LoadFromStorage()), patch);
        accepts(serialize(updated)) && RoundTripsAt(parse, serialize, updated) ==> LoadFromStorage() == updated
    {
      var current := LoadFromStorage();
      var updated := Merge(current, patch);
      var text := serialize(updated);
      if accepts(text) {
        stored := Some(text);
        LoadAfterStore(updated, parse, serialize);
      }
    }

    method ClearStorage()
      modifies this
      ensures stored == None
      ensures LoadFromStorage() == DefaultData
    {
      stored := None;
    }

    /** `exportData()`: the loaded envelope as text, which reads back as that
        envelope whenever the codec carries it. */
    method ExportData() returns (text: string)
      ensures text == serialize(LoadFromStorage())
      ensures RoundTripsAt(parse, serialize, LoadFromStorage()) ==> parse(text) == Some(LoadFromStorage())
    {
      text := serialize(LoadFromStorage());
    }

    /** `importData(json)`: text that does not parse, or a write the browser
        refuses, reports false and changes nothing; otherwise the parsed
        envelope, version fixed, replaces the stored one. */
    method ImportData(json: string) returns (ok: bool)
      modifies this
      ensures ok <==> parse(json).Some? && accepts(serialize(Migrate(parse(json).value)))
      ensures !ok ==> stored == old(stored)
      ensures ok ==> stored == Some(serialize(Migrate(parse(json).value)))
      ensures ok && RoundTripsAt(parse, serialize, Migrate(parse(json).value)) ==>
                LoadFromStorage() == Migrate(parse(json).value)
    {
      match parse(json) {
        case None =>
          ok := false;
        case Some(data) =>
          var text := serialize(Migrate(data));
          if accepts(text) {
            stored := Some(text);
            ok := true;
            LoadAfterStore(Migrate(data), parse, serialize);
            MigrateIdempotent(data);
          } else {
            ok := false;
          }
      }
    }
  }

  /** Clearing, then loading, gives the default envelope. */
  method ClearThenLoad(store: LocalStore) returns (data: Envelope)
    modifies store
    ensures data == DefaultData
  {
    store.ClearStorage();
    data := store.LoadFromStorage();
  }

  /** Importing the exported text succeeds and leaves what the next load
      returns unchanged, when the codec carries the loaded envelope and the
      browser takes its text back. */
  method ExportThenImport(store: LocalStore) returns (ok: bool)
    modifies store
    ensures var before := old(store.LoadFromStorage());
      RoundTripsAt(store.parse, store.serialize, before) && store.accepts(store.serialize(before)) ==>
        ok && store.LoadFromStorage() == before
    ensures !ok ==> store.stored == old(store.stored)
  {
    var before := store.LoadFromStorage();
    MigrateIdempotent(if store.stored == None || store.stored.value == "" || store.parse(store.stored.value) == None
                      then DefaultData else store.parse(store.stored.value).value);
    assert Migrate(before) == before;
    var text := store.ExportData();
    ok := store.ImportData(text);
  }
}
