/** Per-project metadata kept between scans, the key-dispatch update that
    edits it, and the freshness rule of the cached portfolio status. */
module Meta {
  import opened Base
  import opened Types
  import opened Text

  datatype ProjectMeta = ProjectMeta(
    impact: Option<U8>,
    approvedByHuman: bool,
    customCommands: map<string, string>,
    agentCommand: Option<string>,
    automationLevel: Option<AutomationLevel>,
    autoApprove: seq<string>)

  datatype MetaStore = MetaStore(version: string, projects: map<string, ProjectMeta>)

  /** `ProjectMeta::default`. */
  const DefaultMeta: ProjectMeta := ProjectMeta(None, false, map[], None, None, [])

  /** `ProjectMetaStore::default`. */
  const DefaultStore: MetaStore := MetaStore("1.0.0", map[])

  /** The entry `get_project_mut` hands out: the stored one, or a fresh
      default. */
  function EntryOrDefault(store: MetaStore, id: string): ProjectMeta {
    if id in store.projects then store.projects[id] else DefaultMeta
  }

  /** `get_project_mut`: makes sure `id` has an entry, inserting the
      default when it has none; nothing else changes. */
  function GetProjectMut(store: MetaStore, id: string): (r: MetaStore)
    ensures r.version == store.version
    ensures r.projects.Keys == store.projects.Keys + {id}
    ensures id in store.projects ==> r == store
    ensures id !in store.projects ==> r.projects[id] == DefaultMeta
    ensures forall k :: k in store.projects ==> r.projects[k] == store.projects[k]
  {
    if id in store.projects then store
    else MetaStore(store.version, store.projects[id := DefaultMeta])
  }

  /** Why `set_value` can refuse a value. */
  datatype SetError =
    | NotAnInteger(value: string)   // `impact` given something that is not a u8
    | NotABoolean(value: string)    // `approved_by_human` given neither `true` nor `false`
    | UnknownKey(key: string)

  const CommandPrefix: string := "command."

  /** The new entry for `key` := `value`, or why it cannot be set. */
  function UpdateEntry(m: ProjectMeta, key: string, value: string): (r: Result<ProjectMeta, SetError>)
    ensures key == "impact" ==>
              (r.Ok? <==> ParseU8(value).Some?)
              && (r.Ok? ==> r.value == m.(impact := ParseU8(value)))
              && (r.Err? ==> r.error == NotAnInteger(value))
    ensures key == "approved_by_human" ==>
              (r.Ok? <==> value == "true" || value == "false")
              && (r.Ok? ==> r.value == m.(approvedByHuman := value == "true"))
              && (r.Err? ==> r.error == NotABoolean(value))
    ensures key == "agent_command" ==> r == Ok(m.(agentCommand := Some(value)))
    ensures key !in {"impact", "approved_by_human", "agent_command"} && StartsWith(key, CommandPrefix) ==>
              r == Ok(m.(customCommands := m.customCommands[key[|CommandPrefix|..] := value]))
    ensures key !in {"impact", "approved_by_human", "agent_command"} && !StartsWith(key, CommandPrefix) ==>
              r == Err(UnknownKey(key))
  {
    if key == "impact" then
      match ParseU8(value)
      case Some(n) => Ok(m.(impact := Some(n)))
      case None => Err(NotAnInteger(value))
    else if key == "approved_by_human" then
      match ParseBool(value)
      case Some(b) => Ok(m.(approvedByHuman := b))
      case None => Err(NotABoolean(value))
    else if key == "agent_command" then
      Ok(m.(agentCommand := Some(value)))
    else if StartsWith(key, CommandPrefix) then
      Ok(m.(customCommands := m.customCommands[key[|CommandPrefix|..] := value]))
    else
      Err(UnknownKey(key))
  }

  /** The store after `set_value` and its outcome. */
  datatype SetOutcome = SetOutcome(store: MetaStore, error: Option<SetError>)

  /** `set_value`: the entry is fetched (and created) first, then the key
      decides which field changes; a failure leaves the fetched entry as
      it was. */
  function SetValue(store: MetaStore, id: string, key: string, value: string): (r: SetOutcome)
    ensures r.store.version == store.version
    ensures r.store.projects.Keys == store.projects.Keys + {id}
    ensures forall k :: k in store.projects && k != id ==> r.store.projects[k] == store.projects[k]
    ensures r.error.None? <==> UpdateEntry(EntryOrDefault(store, id), key, value).Ok?
    ensures r.error.None? ==> r.store.projects[id] == UpdateEntry(EntryOrDefault(store, id), key, value).value
    ensures r.error.Some? ==> r.store.projects[id] == EntryOrDefault(store, id)
                              && r.error.value == UpdateEntry(EntryOrDefault(store, id), key, value).error
  {
    var fetched := GetProjectMut(store, id);
    match UpdateEntry(fetched.projects[id], key, value)
    case Ok(m) => SetOutcome(MetaStore(fetched.version, fetched.projects[id := m]), None)
    case Err(e) => SetOutcome(fetched, Some(e))
  }

  /** Setting a `command.<name>` key and reading the name back gives the
      value, whatever the entry held before. */
  lemma SetCommandThenRead(store: MetaStore, id: string, name: string, value: string)
    ensures var r := SetValue(store, id, CommandPrefix + name, value);
            r.error.None? && name in r.store.projects[id].customCommands
            && r.store.projects[id].customCommands[name] == value
  {
    var key := CommandPrefix + name;
    assert StartsWith(key, CommandPrefix);
    assert key[|CommandPrefix|..] == name;
    assert key[0] == 'c';
    assert key != "impact" && key != "approved_by_human" && key != "agent_command";
  }

  /** Setting the impact to a number's decimal text stores that number. */
  lemma SetImpactThenRead(store: MetaStore, id: string, n: U8)
    ensures var r := SetValue(store, id, "impact", ToDecimal(n));
            r.error.None? && r.store.projects[id].impact == Some(n)
  {
    ParseU8OfDecimal(n);
  }

  /** An unknown key still leaves a default entry behind for a new id. */
  lemma UnknownKeyCreatesEntry(store: MetaStore, id: string, key: string, value: string)
    requires id !in store.projects
    requires key !in {"impact", "approved_by_human", "agent_command"} && !StartsWith(key, CommandPrefix)
    ensures SetValue(store, id, key, value).error == Some(UnknownKey(key))
    ensures SetValue(store, id, key, value).store.projects[id] == DefaultMeta
  {
  }

  // ---------------------------------------------------------------------
  // loading

  /** How reading and decoding a stored file turned out, when it exists. */
  datatype Stored<T> = Missing | Unreadable(cause: Error) | Decoded(value: T)

  /** `ProjectMetaStore::load`: a missing file is the default store. */
  function LoadStore(file: Stored<MetaStore>): (r: Result<MetaStore, Error>)
    ensures file.Missing? ==> r == Ok(DefaultStore)
    ensures file.Unreadable? ==> r == Err(file.cause)
    ensures file.Decoded? ==> r == Ok(file.value)
  {
    match file
    case Missing => Ok(DefaultStore)
    case Unreadable(e) => Err(e)
    case Decoded(s) => Ok(s)
  }

  /** The cached portfolio and when it was written. */
  datatype StatusCache = StatusCache(lastUpdated: Instant, data: PortfolioStatus)

  const NanosPerSecond: int := 1_000_000_000

  /** Whole minutes in a span of nanoseconds, truncated toward zero:
      whole seconds first, then whole minutes. */
  function NumMinutes(nanos: int): (m: int)
    ensures nanos >= 0 ==> m * 60 * NanosPerSecond <= nanos < (m + 1) * 60 * NanosPerSecond
    ensures nanos < 0 ==> m <= 0
  {
    TruncDiv(TruncDiv(nanos, NanosPerSecond), 60)
  }

  /** The cache is fresh while its age counts fewer than five whole
      minutes. */
  predicate Fresh(ageNanos: int) {
    NumMinutes(ageNanos) < 5
  }

  /** Fresh exactly below 300 seconds; every negative age is fresh. */
  lemma FreshBelowFiveMinutes(ageNanos: int)
    ensures Fresh(ageNanos) <==> ageNanos < 300 * NanosPerSecond
  {
    if ageNanos >= 0 {
      var m := NumMinutes(ageNanos);
      if m >= 5 {
        assert 300 * NanosPerSecond <= m * 60 * NanosPerSecond;
      }
    }
  }

  /** `StatusCache::load` at time `now`: a missing file is no cache, and a
      cache that is no longer fresh is dropped. */
  function LoadCache(file: Stored<StatusCache>, now: Instant): (r: Result<Option<StatusCache>, Error>)
    ensures file.Missing? ==> r == Ok(None)
    ensures file.Unreadable? ==> r == Err(file.cause)
    ensures file.Decoded? ==> r.Ok?
    ensures r.Ok? && r.value.Some? ==> file == Decoded(r.value.value)
                                       && now - r.value.value.lastUpdated < 300 * NanosPerSecond
    ensures file.Decoded? && now - file.value.lastUpdated < 300 * NanosPerSecond ==> r == Ok(Some(file.value))
  {
    match file
    case Missing => Ok(None)
    case Unreadable(e) => Err(e)
    case Decoded(cache) =>
      FreshBelowFiveMinutes(now - cache.lastUpdated);
      if Fresh(now - cache.lastUpdated) then Ok(Some(cache)) else Ok(None)
  }
}
