/** The event handler's runtime configuration and its loader (src/config.rs).
    Reading and parsing the INI file is done by the ini crate; here its
    outcome is an input: either a load error or the file's sections, keyed
    as the ini crate keys them (`None` for the keys before any section
    header, `Some(name)` for a named section). */
module ConfigLoader {
  import opened Wrappers
  import opened EventFlags
  import opened Uint32
  import DecimalU32

  /** The keys and raw string values of one INI section. */
  type Section = map<string, string>

  /** A parsed INI file: section name to section. */
  type Ini = map<Option<string>, Section>

  /** Why the ini crate could not deliver a parsed file. */
  datatype LoadError = IoError | SyntaxError

  /** Why `Config::from_path` fails. */
  datatype ConfigError = Load(cause: LoadError) | MissingGeneral

  /** All of the runtime configuration for the event handler. The path is a
      plain string: `PathBuf::from` does not normalise it. */
  datatype Config = Config(enabled: bool, dbPath: string, events: EventMask)

  /** The invariant every configuration keeps: no unknown event bits. */
  predicate WellFormed(c: Config) {
    IsKnown(c.events)
  }

  const GENERAL: string := "general"
  const DEFAULT_DB_PATH: string := "events.db"

  /** `parse_yesno`: an exact match against the one spelling `yes`. */
  function ParseYesNo(val: string): bool {
    val == "yes"
  }

  /** `parse_events`: a base-10 u32, truncated to the known flags; `None`
      when the string is not a u32. */
  function ParseEvents(val: string): (r: Option<EventMask>)
    ensures r.Some? <==> DecimalU32.IsU32Literal(val)
    ensures r.Some? ==> r.value == And(DecimalU32.LiteralValue(val), KNOWN)
    ensures r.Some? ==> IsKnown(r.value)
  {
    match DecimalU32.FromStr(val)
    case Some(raw) => Some(FromBitsTruncate(raw))
    case None => None
  }

  /** `Config::default()`. */
  function Default(): (c: Config)
    ensures WellFormed(c)
  {
    Config(enabled := true, dbPath := DEFAULT_DB_PATH, events := All())
  }

  /** The record `from_path` builds once the `general` section is found:
      each field is its key's parsed value when present (and, for `events`,
      parsable) and the default's field otherwise. */
  function FromSection(section: Section): (c: Config)
    ensures WellFormed(c)
  {
    var defaults := Default();
    Config(
      enabled := Get(section, "enabled").Map(ParseYesNo).UnwrapOr(defaults.enabled),
      dbPath := Get(section, "db_path").UnwrapOr(defaults.dbPath),
      events := Get(section, "events").AndThen(ParseEvents).UnwrapOr(defaults.events))
  }

  /** `Config::from_path`, given what loading the file produced. A load error
      or a missing `general` section is an error, and then no configuration
      is returned, not even the default one; otherwise the configuration is
      the one built from the `general` section alone. */
  function FromPath(loaded: Result<Ini, LoadError>): (r: Result<Config, ConfigError>)
    ensures loaded.Failure? ==> r == Failure(Load(loaded.error))
    ensures loaded.Success? && Some(GENERAL) !in loaded.value ==> r == Failure(MissingGeneral)
    ensures r.Success? <==> loaded.Success? && Some(GENERAL) in loaded.value
    ensures r.Success? ==> r.value == FromSection(loaded.value[Some(GENERAL)])
    ensures r.Success? ==> WellFormed(r.value)
  {
    var conf :- loaded.MapErr(e => Load(e));
    var section :- Get(conf, Some(GENERAL)).OkOr(MissingGeneral);
    Success(FromSection(section))
  }

  // ---------------------------------------------------------------------
  // Properties of the field rules
  // ---------------------------------------------------------------------

  /** `yes` is the only spelling of true: other truthy spellings, case
      variants and the empty string are all false. */
  lemma ParseYesNoStrict(val: string)
    ensures ParseYesNo(val) <==> val == "yes"
    ensures !ParseYesNo("true") && !ParseYesNo("1") && !ParseYesNo("YES")
    ensures !ParseYesNo("Yes") && !ParseYesNo("no") && !ParseYesNo("")
  {
  }

  /** An events value of zero is the empty mask (recording stays on but no
      category is captured). */
  lemma ParseEventsZero()
    ensures ParseEvents("0") == Some(Empty())
  {
  }

  /** A non-number, the empty string and a negative number are rejected. */
  lemma ParseEventsRejectsNonNumbers()
    ensures ParseEvents("abc") == None && ParseEvents("") == None && ParseEvents("-1") == None
  {
  }

  /** A number written out in decimal parses, truncated to the known flags,
      exactly when it fits in a u32. */
  lemma ParseEventsDecimal(n: nat)
    ensures n > U32_MAX ==> ParseEvents(DecimalU32.Decimal(n)) == None
    ensures n <= U32_MAX ==> ParseEvents(DecimalU32.Decimal(n)) == Some(FromBitsTruncate(n))
  {
  }

  /** Every mask of known flags can be written in the file: its decimal
      spelling parses to exactly that mask. */
  lemma ParseEventsOnto(m: EventMask)
    requires IsKnown(m)
    ensures ParseEvents(DecimalU32.Decimal(m)) == Some(m)
  {
  }

  /** `enabled` is false exactly when the key is present with a value other
      than `yes`; nothing but that key matters. */
  lemma EnabledRule(section: Section)
    ensures FromSection(section).enabled <==> "enabled" !in section || section["enabled"] == "yes"
  {
  }

  /** `db_path` is the key's value verbatim when present, `events.db` otherwise. */
  lemma DbPathRule(section: Section)
    ensures "db_path" in section ==> FromSection(section).dbPath == section["db_path"]
    ensures "db_path" !in section ==> FromSection(section).dbPath == "events.db"
  {
  }

  /** `events` is the parsed number truncated to the known flags when the key
      holds a u32, and every known flag when the key is absent or its value
      does not parse (no error is raised for a bad value). */
  lemma EventsRule(section: Section)
    ensures FromSection(section).events ==
      if "events" in section && DecimalU32.IsU32Literal(section["events"])
      then And(DecimalU32.LiteralValue(section["events"]), KNOWN)
      else KNOWN
  {
  }

  /** Two sections that agree on one of the three keys (both lack it, or both
      hold the same value) give the same value for that field, whatever else
      they hold. */
  predicate AgreeOn(s: Section, t: Section, key: string) {
    (key in s <==> key in t) && (key in s ==> s[key] == t[key])
  }

  lemma FieldsAreIndependent(s: Section, t: Section)
    ensures AgreeOn(s, t, "enabled") ==> FromSection(s).enabled == FromSection(t).enabled
    ensures AgreeOn(s, t, "db_path") ==> FromSection(s).dbPath == FromSection(t).dbPath
    ensures AgreeOn(s, t, "events") ==> FromSection(s).events == FromSection(t).events
  {
  }

  /** An absent key leaves its field at the default, whatever the other keys say. */
  lemma AbsentKeysKeepDefaults(section: Section)
    ensures "enabled" !in section ==> FromSection(section).enabled == Default().enabled
    ensures "db_path" !in section ==> FromSection(section).dbPath == Default().dbPath
    ensures "events" !in section ==> FromSection(section).events == Default().events
  {
  }

  /** The documented defaults: recording on, `events.db`, every known flag. */
  lemma DefaultValues()
    ensures Default() == Config(true, "events.db", KNOWN)
    ensures FromPath(Success(map[Some(GENERAL) := map[]])) == Success(Default())
  {
  }

  /** A section that sets every key, as in the file
      `enabled = yes`, `db_path = /tmp/x.db`, `events = 3`, when bits 0 and 1
      are known flags. */
  lemma AllExplicit()
    requires Subset(3, KNOWN)
    ensures FromSection(map["enabled" := "yes", "db_path" := "/tmp/x.db", "events" := "3"])
              == Config(true, "/tmp/x.db", 3)
  {
  }
}
