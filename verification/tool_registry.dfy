/** The action catalogue advertised to the language model (`calendarTools`) and
    the API-key choice of `createOpenAIClient` (src/lib/openai.ts). */
module ToolRegistry {
  import opened Wrappers

  /** One declared parameter: name, JSON type and description. */
  datatype Property = Property(name: string, typ: string, description: string)

  /** One `{ type: 'function', function: { ... } }` entry. `required` is absent
      for a tool that declares no required list. */
  datatype ToolDef = ToolDef(
    name: string,
    description: string,
    properties: seq<Property>,
    required: Option<seq<string>>)

  function PropertyNames(t: ToolDef): seq<string> {
    seq(|t.properties|, i requires 0 <= i < |t.properties| => t.properties[i].name)
  }

  function ToolNames(tools: seq<ToolDef>): seq<string> {
    seq(|tools|, i requires 0 <= i < |tools| => tools[i].name)
  }

  predicate Distinct(names: seq<string>) {
    forall i, j :: 0 <= i < j < |names| ==> names[i] != names[j]
  }

  /** Every name a tool marks as required is one of its declared properties. */
  predicate RequiredDeclared(t: ToolDef) {
    t.required.Some? ==> forall k :: 0 <= k < |t.required.value| ==> t.required.value[k] in PropertyNames(t)
  }

  predicate Requires(t: ToolDef, field: string) {
    t.required.Some? && field in t.required.value
  }

  predicate Declares(t: ToolDef, field: string) {
    field in PropertyNames(t)
  }

  const CreateEventTool := ToolDef(
    "create_event",
    "Create a new calendar event",
    [ Property("title", "string", "The title of the event"),
      Property("start", "string", "ISO string for the start time"),
      Property("end", "string", "ISO string for the end time"),
      Property("description", "string", "Optional description") ],
    Some(["title", "start", "end"]))

  const ListEventsTool := ToolDef("list_events", "List all calendar events", [], None)

  const DeleteEventTool := ToolDef(
    "delete_event",
    "Delete a calendar event by ID",
    [ Property("id", "string", "The ID of the event to delete") ],
    Some(["id"]))

  const SetTimezoneTool := ToolDef(
    "set_timezone",
    "Set the target timezone for the calendar",
    [ Property("timezone", "string",
        "The timezone identifier (e.g., \"UTC\", \"America/New_York\", \"Europe/London\", \"Asia/Tokyo\")") ],
    Some(["timezone"]))

  /** `calendarTools`: four tools with distinct names, each of whose required
      fields is declared. */
  function CalendarTools(): (r: seq<ToolDef>)
    ensures ToolNames(r) == ["create_event", "list_events", "delete_event", "set_timezone"]
    ensures Distinct(ToolNames(r))
    ensures forall i :: 0 <= i < |r| ==> RequiredDeclared(r[i])
  {
    assert PropertyNames(CreateEventTool) == ["title", "start", "end", "description"];
    assert PropertyNames(DeleteEventTool) == ["id"];
    assert PropertyNames(SetTimezoneTool) == ["timezone"];
    [CreateEventTool, ListEventsTool, DeleteEventTool, SetTimezoneTool]
  }

  /** The catalogue entry with the given name, if any. */
  function FindTool(tools: seq<ToolDef>, name: string): (r: Option<ToolDef>)
    ensures r.Some? <==> name in ToolNames(tools)
    ensures r.Some? ==> r.value in tools && r.value.name == name
    decreases |tools|
  {
    if |tools| == 0 then None
    else if tools[0].name == name then
      assert ToolNames(tools)[0] == name;
      Some(tools[0])
    else
      assert ToolNames(tools) == [tools[0].name] + ToolNames(tools[1..]);
      FindTool(tools[1..], name)
  }

  /** The parameter schemas of the four tools, field by field. */
  lemma CatalogueSchemas()
    ensures FindTool(CalendarTools(), "create_event") == Some(CreateEventTool)
    ensures Requires(CreateEventTool, "title") && Requires(CreateEventTool, "start") && Requires(CreateEventTool, "end")
    ensures Declares(CreateEventTool, "description") && !Requires(CreateEventTool, "description")
    ensures FindTool(CalendarTools(), "list_events") == Some(ListEventsTool)
    ensures PropertyNames(ListEventsTool) == [] && ListEventsTool.required.None?
    ensures FindTool(CalendarTools(), "delete_event") == Some(DeleteEventTool)
    ensures DeleteEventTool.required == Some(["id"])
    ensures FindTool(CalendarTools(), "set_timezone") == Some(SetTimezoneTool)
    ensures SetTimezoneTool.required == Some(["timezone"])
  {
    assert PropertyNames(CreateEventTool)[3] == "description";
  }

  /** `getApiKey()`: the build-time environment key, or `''` when it is unset or empty. */
  function EnvironmentKey(env: Option<string>): (k: string)
    ensures k == "" <==> env.None? || env.value == ""
    ensures k != "" ==> k == env.value
  {
    if env.Some? && env.value != "" then env.value else ""
  }

  /** The `apiKey` handed to the client: the passed key when truthy, otherwise
      the environment key. */
  function ApiKey(passed: Option<string>, env: Option<string>): (k: string)
    ensures passed.Some? && passed.value != "" ==> k == passed.value
    ensures (passed.None? || passed.value == "") ==> k == EnvironmentKey(env)
    ensures k == "" <==> (passed.None? || passed.value == "") && (env.None? || env.value == "")
  {
    if passed.Some? && passed.value != "" then passed.value else EnvironmentKey(env)
  }
}
