/** `mapPriority` of convert.js: a fixed table from source priorities to the three target levels. */
module Priority {
  import opened Wrappers

  /** The eight source priorities and their target levels. */
  const PriorityTable: map<string, string> := map[
    "Blocker" := "high", "Critical" := "high", "Major" := "normal", "Minor" := "normal",
    "Trivial" := "low", "High" := "high", "Normal" := "normal", "Low" := "low"]

  predicate IsPriorityLevel(level: string) {
    level == "high" || level == "normal" || level == "low"
  }

  /** The property name that `priorityMap[priority]` looks up; `undefined` reads as "undefined". */
  function PropertyKey(priority: Option<string>): string {
    match priority
    case None => "undefined"
    case Some(p) => p
  }

  /**
   * `mapPriority(priority)`, reading only the table's own entries: the table's level for
   * the eight listed names and 'normal' for anything else, an absent value included.
   */
  function MapPriority(priority: Option<string>): (level: string)
    ensures IsPriorityLevel(level)
  {
    var key := PropertyKey(priority);
    if key in PriorityTable then PriorityTable[key] else "normal"
  }

  /** The table, entry by entry, and the default. */
  lemma MapPriorityTable(p: string)
    ensures MapPriority(Some("Blocker")) == "high" && MapPriority(Some("Critical")) == "high"
    ensures MapPriority(Some("Major")) == "normal" && MapPriority(Some("Minor")) == "normal"
    ensures MapPriority(Some("Trivial")) == "low" && MapPriority(Some("High")) == "high"
    ensures MapPriority(Some("Normal")) == "normal" && MapPriority(Some("Low")) == "low"
    ensures MapPriority(None) == "normal"
    ensures p !in {"Blocker", "Critical", "Major", "Minor", "Trivial", "High", "Normal", "Low"} ==>
      MapPriority(Some(p)) == "normal"
  {
  }

  // ---------------------------------------------------------------------------
  // The lookup as written: a plain object literal inherits from Object.prototype
  // ---------------------------------------------------------------------------

  /** Properties every object literal inherits from `Object.prototype`; all of them are truthy. */
  const ObjectPrototypeProperties: set<string> := {
    "constructor", "hasOwnProperty", "isPrototypeOf", "propertyIsEnumerable",
    "toLocaleString", "toString", "valueOf", "__proto__",
    "__defineGetter__", "__defineSetter__", "__lookupGetter__", "__lookupSetter__"}

  /** What `priorityMap[priority] || 'normal'` can evaluate to. */
  datatype LookupValue = StringValue(text: string) | PrototypeMember(name: string)

  /**
   * `mapPriority` as written: a name the table does not list but `Object.prototype` has
   * finds the inherited member, which is truthy, so `|| 'normal'` does not replace it.
   */
  function MapPriorityAsWritten(priority: Option<string>): (v: LookupValue)
    ensures v.PrototypeMember? <==> PropertyKey(priority) in ObjectPrototypeProperties
  {
    var key := PropertyKey(priority);
    if key in PriorityTable then StringValue(PriorityTable[key])
    else if key in ObjectPrototypeProperties then PrototypeMember(key)
    else StringValue("normal")
  }

  /** Priority "toString" yields an inherited function, not one of the three levels. */
  lemma MapPriorityAsWrittenLeaksPrototype()
    ensures MapPriorityAsWritten(Some("toString")) == PrototypeMember("toString")
    ensures MapPriority(Some("toString")) == "normal"
  {
  }

  /** Away from the inherited names the lookup as written and the corrected one agree. */
  lemma MapPriorityAsWrittenAgrees(priority: Option<string>)
    requires PropertyKey(priority) !in ObjectPrototypeProperties
    ensures MapPriorityAsWritten(priority) == StringValue(MapPriority(priority))
  {
  }
}
