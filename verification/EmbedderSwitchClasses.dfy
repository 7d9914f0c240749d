/** The command line and the switch policy as the objects the program keeps. */
module EmbedderSwitchClasses {
  import opened CommaLists
  import Policy = EmbedderSwitches

  lemma JoinIsEmpty(tokens: seq<string>)
    requires AllClean(tokens)
    ensures Join(tokens) == "" <==> tokens == []
  {
    hide IsSpace;
  }

  /** Appends the items of `incoming` that are not in the list yet, then joins the list again. */
  method MergeCommaSeparatedValues(existing: string, incoming: string) returns (merged: string)
    ensures merged == Policy.MergeCommaSeparatedValues(existing, incoming)
  {
    hide Tokens, Clean;
    if existing == "" {
      return incoming;
    }
    if incoming == "" {
      return existing;
    }
    var values := Tokens(existing);
    var added := Tokens(incoming);
    for i := 0 to |added|
      invariant values == Policy.Extend(Tokens(existing), added[..i])
    {
      assert added[..i + 1][..i] == added[..i];
      if added[i] !in values {
        values := values + [added[i]];
      }
    }
    assert added[..|added|] == added;
    Policy.ExtendClean(Tokens(existing), added);
    merged := "";
    for i := 0 to |values|
      invariant merged == Join(values[..i])
    {
      assert values[..i + 1] == values[..i] + [values[i]];
      JoinSnoc(values[..i], values[i]);
      JoinIsEmpty(values[..i]);
      if merged != "" {
        merged := merged + ",";
      }
      merged := merged + values[i];
    }
    assert values[..|values|] == values;
  }

  method FindToken(list: string, expected: string) returns (found: bool)
    ensures found == (expected in Tokens(list))
  {
    hide Tokens, AllClean;
    var values := Tokens(list);
    for i := 0 to |values|
      invariant forall j :: 0 <= j < i ==> values[j] != expected
    {
      if values[i] == expected {
        return true;
      }
    }
    return false;
  }

  class CommandLine {
    var switches: Policy.Switches

    constructor (switches: Policy.Switches)
      ensures this.switches == switches
    {
      this.switches := switches;
    }

    method GetSwitchValueASCII(name: string) returns (value: string)
      ensures value == Policy.ValueOf(switches, name)
    {
      value := if name in switches then switches[name] else "";
    }

    method RemoveSwitch(name: string)
      modifies this
      ensures switches == old(switches) - {name}
    {
      switches := switches - {name};
    }

    method AppendSwitchASCII(name: string, value: string)
      modifies this
      ensures switches == old(switches)[name := value]
    {
      switches := switches[name := value];
    }
  }

  method AppendSwitch(commandLine: CommandLine?, s: Policy.EmbedderSwitch)
    modifies commandLine
    ensures commandLine != null ==>
              commandLine.switches == Policy.AppendSwitch(old(commandLine.switches), s)
  {
    hide Policy.MergeCommaSeparatedValues;
    if commandLine == null || s.name == "" {
      return;
    }
    if s.value.None? {
      commandLine.RemoveSwitch(s.name);
      commandLine.AppendSwitchASCII(s.name, "");
      return;
    }
    var value := s.value.value;
    if Policy.IsCommaMergedSwitch(s.name) {
      var existing := commandLine.GetSwitchValueASCII(s.name);
      value := MergeCommaSeparatedValues(existing, value);
    } else {
      commandLine.RemoveSwitch(s.name);
    }
    commandLine.AppendSwitchASCII(s.name, value);
  }

  method ScopeForChildProcess(commandLine: CommandLine?) returns (scope: bv32)
    ensures scope == if commandLine == null then 0 else Policy.ScopeForChildProcess(commandLine.switches)
  {
    if commandLine == null {
      return 0;
    }
    scope := Policy.ALL_CHILDREN_SCOPE;
    var processType := commandLine.GetSwitchValueASCII(Policy.PROCESS_TYPE);
    if processType == Policy.GPU_PROCESS {
      scope := scope | Policy.GPU_CHILD_SCOPE;
    } else if processType == Policy.RENDERER_PROCESS {
      scope := scope | Policy.RENDERER_CHILD_SCOPE;
    }
  }

  method AppendDefaultGpuChildSwitches(commandLine: CommandLine?, scope: bv32)
    modifies commandLine
    ensures commandLine != null ==>
              commandLine.switches == Policy.AppendDefaultGpuChildSwitches(old(commandLine.switches), scope)
  {
    hide Policy.MergeCommaSeparatedValues, Policy.AppendSwitch, Tokens;
    if commandLine == null || scope & Policy.GPU_CHILD_SCOPE == 0 {
      return;
    }
    AppendSwitch(commandLine, Policy.WAYLAND_DEFAULT);
    AppendSwitch(commandLine, Policy.GLES2_DEFAULT);
    var features := commandLine.GetSwitchValueASCII(Policy.ENABLE_FEATURES);
    var found := FindToken(features, Policy.FALLBACK_FEATURE);
    if found {
      return;
    }
    AppendSwitch(commandLine, Policy.FALLBACK_DEFAULT);
  }

  lemma NoScope(c: Policy.Switches, policy: seq<Policy.EmbedderSwitch>)
    ensures Policy.AppendSwitchesForScope(c, policy, 0) == c
  {
  }

  lemma NoSwitches(c: Policy.Switches, scope: bv32)
    ensures Policy.AppendSwitchesForScope(c, [], scope) == c
  {
  }

  lemma OneMore(c: Policy.Switches, policy: seq<Policy.EmbedderSwitch>, i: nat, scope: bv32)
    requires i < |policy| && scope != 0
    ensures var before := Policy.AppendSwitchesForScope(c, policy[..i], scope);
            Policy.AppendSwitchesForScope(c, policy[..i + 1], scope) ==
            if Policy.InScope(policy[i], scope) then Policy.AppendSwitch(before, policy[i]) else before
  {
    hide Policy.AppendSwitch, Policy.InScope;
    assert policy[..i + 1][..i] == policy[..i];
  }

  class SwitchPolicy {
    var switches: seq<Policy.EmbedderSwitch>

    constructor ()
      ensures switches == []
    {
      switches := [];
    }

    method SetEmbedderSwitches(switches: seq<Policy.EmbedderSwitch>)
      modifies this
      ensures this.switches == switches
    {
      this.switches := switches;
    }

    method ClearEmbedderSwitches()
      modifies this
      ensures switches == []
    {
      SetEmbedderSwitches([]);
    }

    method AppendSwitchesForScope(commandLine: CommandLine?, scope: bv32)
      modifies commandLine
      ensures commandLine != null ==>
                commandLine.switches ==
                Policy.AppendSwitchesForScope(old(commandLine.switches), switches, scope)
    {
      hide Policy.AppendSwitch, Policy.InScope, Policy.AppendSwitchesForScope;
      if scope == 0 {
        NoScope(if commandLine == null then map[] else commandLine.switches, switches);
        return;
      }
      var snapshot := switches;
      NoSwitches(if commandLine == null then map[] else commandLine.switches, scope);
      for i := 0 to |snapshot|
        invariant commandLine != null ==>
                    commandLine.switches ==
                    Policy.AppendSwitchesForScope(old(commandLine.switches), snapshot[..i], scope)
      {
        OneMore(if commandLine == null then map[] else old(commandLine.switches), snapshot, i, scope);
        if Policy.InScope(snapshot[i], scope) {
          AppendSwitch(commandLine, snapshot[i]);
        }
      }
      assert snapshot[..|snapshot|] == snapshot;
    }

    method AppendEmbedderSwitchesForBrowser(commandLine: CommandLine?)
      modifies commandLine
      ensures commandLine != null ==>
                commandLine.switches ==
                Policy.AppendEmbedderSwitchesForBrowser(old(commandLine.switches), switches)
    {
      AppendSwitchesForScope(commandLine, Policy.BROWSER_SCOPE);
    }

    method AppendEmbedderSwitchesForChild(commandLine: CommandLine?)
      modifies commandLine
      ensures commandLine != null ==>
                commandLine.switches ==
                Policy.AppendEmbedderSwitchesForChild(old(commandLine.switches), switches)
    {
      var scope := ScopeForChildProcess(commandLine);
      AppendSwitchesForScope(commandLine, scope);
      AppendDefaultGpuChildSwitches(commandLine, scope);
    }
  }
}
