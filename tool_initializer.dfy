/** The viewer's tool registry: one instance of each default tool under its
    name, extended by `registerTool`, and looked up by `toolFactory`. */
module ToolInitializer {
  import opened Wrappers

  /** The tool classes; `Registered(id)` is a class given to `registerTool`. */
  datatype ToolClass =
    | NullTool | HandTool | WindowTool | ZoomTool | PagerTool | CelestialRotateTool
    | BrushTool | EraserTool | VrRotateZoomTool
    | Registered(id: string)

  /** A tool instance; its behaviour is not modelled. */
  class Tool {
    const toolClass: ToolClass

    constructor(toolClass: ToolClass)
      ensures this.toolClass == toolClass
    {
      this.toolClass := toolClass;
    }
  }

  /** `defaultTools`, in key order. `bucket` uses the class imported under
      the name `BucketTool`, which is the brush tool's module. */
  const DefaultTools: seq<(string, ToolClass)> := [
    ("null", NullTool), ("hand", HandTool), ("window", WindowTool), ("zoom", ZoomTool),
    ("pager", PagerTool), ("celestialRotate", CelestialRotateTool),
    ("brush", BrushTool), ("eraser", EraserTool), ("bucket", BrushTool),
    ("vr-rotate-zoom", VrRotateZoomTool)]

  /** The names a plain object has through its prototype; `in` finds them
      although they were never assigned. */
  const InheritedNames: set<string> := {
    "constructor", "hasOwnProperty", "isPrototypeOf", "propertyIsEnumerable",
    "toLocaleString", "toString", "valueOf", "__proto__",
    "__defineGetter__", "__defineSetter__", "__lookupGetter__", "__lookupSetter__"}

  const AlreadyAssigned := "This tool name is already assigned"

  /** The first `n` entries of `defaultTools` as a dictionary. */
  function DefaultsUpTo(n: nat): map<string, ToolClass>
    requires n <= |DefaultTools|
  {
    if n == 0 then map[] else DefaultsUpTo(n - 1)[DefaultTools[n - 1].0 := DefaultTools[n - 1].1]
  }

  function Defaults(): map<string, ToolClass>
  {
    DefaultsUpTo(|DefaultTools|)
  }

  lemma {:induction false} DefaultsUpToHolds(n: nat, i: nat)
    requires i < n <= |DefaultTools|
    requires forall j :: i < j < n ==> DefaultTools[j].0 != DefaultTools[i].0
    ensures DefaultTools[i].0 in DefaultsUpTo(n) && DefaultsUpTo(n)[DefaultTools[i].0] == DefaultTools[i].1
    decreases n
  {
    if i < n - 1 {
      DefaultsUpToHolds(n - 1, i);
    }
  }

  lemma {:induction false} DefaultsUpToKeys(n: nat, name: string)
    requires n <= |DefaultTools|
    ensures name in DefaultsUpTo(n) ==> exists i :: 0 <= i < n && DefaultTools[i].0 == name
    decreases n
  {
    if n > 0 {
      DefaultsUpToKeys(n - 1, name);
    }
  }

  lemma DefaultNamesDistinct()
    ensures forall i, j :: 0 <= i < j < |DefaultTools| ==> DefaultTools[i].0 != DefaultTools[j].0
  {
  }

  /** Every entry of `defaultTools` is in the dictionary with its class, and
      nothing else is. */
  lemma DefaultsHold()
    ensures forall i :: 0 <= i < |DefaultTools| ==> DefaultTools[i].0 in Defaults() && Defaults()[DefaultTools[i].0] == DefaultTools[i].1
    ensures forall name :: name in Defaults() ==> exists i :: 0 <= i < |DefaultTools| && DefaultTools[i].0 == name
  {
    DefaultNamesDistinct();
    forall i | 0 <= i < |DefaultTools|
      ensures DefaultTools[i].0 in Defaults() && Defaults()[DefaultTools[i].0] == DefaultTools[i].1
    {
      DefaultsUpToHolds(|DefaultTools|, i);
    }
    forall name | name in Defaults()
      ensures exists i :: 0 <= i < |DefaultTools| && DefaultTools[i].0 == name
    {
      DefaultsUpToKeys(|DefaultTools|, name);
    }
  }

  /** `bucket` is bound to the brush tool, and `null` to the base tool. */
  lemma BucketIsBrush()
    ensures "bucket" in Defaults() && Defaults()["bucket"] == BrushTool
    ensures "brush" in Defaults() && Defaults()["brush"] == BrushTool
    ensures "null" in Defaults() && Defaults()["null"] == NullTool
  {
    DefaultsHold();
    assert DefaultTools[8] == ("bucket", BrushTool);
    assert DefaultTools[6] == ("brush", BrushTool);
    assert DefaultTools[0] == ("null", NullTool);
  }

  /** What `toolCollection[key]` evaluates to. */
  datatype Lookup = Own(tool: Tool) | Inherited(name: string) | Undefined

  /** `toolCollection`. */
  class ToolCollection {
    var tools: map<string, Tool>

    /** `toolName in toolCollection`, which also sees inherited names. */
    predicate Has(name: string)
      reads this
    {
      name in tools || name in InheritedNames
    }

    /** Every name holds its own instance. */
    predicate InstancesDistinct()
      reads this
    {
      forall a, b :: a in tools && b in tools && a != b ==> tools[a] != tools[b]
    }

    /** The module's initialisation: a new instance of each default class. */
    constructor()
      ensures forall name :: name in tools <==> name in Defaults()
      ensures forall name :: name in tools ==> tools[name].toolClass == Defaults()[name]
      ensures forall name :: name in tools ==> fresh(tools[name])
      ensures InstancesDistinct()
    {
      var m: map<string, Tool> := map[];
      var i := 0;
      while i < |DefaultTools|
        invariant 0 <= i <= |DefaultTools|
        invariant forall name :: name in m <==> name in DefaultsUpTo(i)
        invariant forall name :: name in m ==> m[name].toolClass == DefaultsUpTo(i)[name]
        invariant forall name :: name in m ==> fresh(m[name])
        invariant forall a, b :: a in m && b in m && a != b ==> m[a] != m[b]
      {
        var entry := DefaultTools[i];
        var t := new Tool(entry.1);
        m := m[entry.0 := t];
        i := i + 1;
      }
      tools := m;
    }

    /** `registerTool`: an error for a name the collection already has, and
        otherwise a new instance under exactly that name. */
    method RegisterTool(toolName: string, toolClass: ToolClass) returns (r: Outcome<string>)
      modifies this
      ensures old(Has(toolName)) ==> r == Fail(AlreadyAssigned) && tools == old(tools)
      ensures !old(Has(toolName)) ==>
        r == Pass && toolName in tools && fresh(tools[toolName]) && tools[toolName].toolClass == toolClass
        && tools == old(tools)[toolName := tools[toolName]]
      ensures old(InstancesDistinct()) ==> InstancesDistinct()
    {
      if Has(toolName) {
        return Fail(AlreadyAssigned);
      }
      var t := new Tool(toolClass);
      tools := tools[toolName := t];
      r := Pass;
    }

    /** `toolFactory`: the stored instance itself, an inherited member, or
        `undefined`. */
    function ToolFactory(key: string): (r: Lookup)
      reads this
      ensures r.Own? <==> key in tools
      ensures r.Own? ==> r.tool == tools[key]
      ensures r.Undefined? <==> !Has(key)
    {
      if key in tools then Own(tools[key])
      else if key in InheritedNames then Inherited(key)
      else Undefined
    }
  }
}
