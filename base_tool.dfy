/**
 * `BaseTool` (app/tools/base_tool.py): a named editing tool with an activation flag. The
 * brush and the picker hold one of these as their tool part (there is no subclassing here),
 * and the canvas activates and deactivates that part.
 */
module Tools {
  import opened Wrappers

  const DefaultCursor: string := "default"

  /** The tool an optional reference holds, as a frame. */
  function Held(t: Option<BaseTool>): set<BaseTool>
  {
    if t.Some? then {t.value} else {}
  }

  class BaseTool {
    const name: string
    var isActive: bool

    /** A new tool is inactive and stores its name. */
    constructor(name: string)
      ensures this.name == name && !isActive
    {
      this.name := name;
      isActive := false;
    }

    /** `activate`: idempotent, touches only the flag. */
    method Activate()
      modifies this
      ensures isActive
    {
      isActive := true;
    }

    /** `deactivate`: idempotent, touches only the flag. */
    method Deactivate()
      modifies this
      ensures !isActive
    {
      isActive := false;
    }

    /** `get_cursor` of a tool that does not override it. */
    function Cursor(): (c: string)
      ensures c == DefaultCursor
    {
      DefaultCursor
    }
  }
}
