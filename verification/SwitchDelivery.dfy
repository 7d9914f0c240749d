/**
 Which process gets which switch of the policy: scope bits, process types and switch names as they are
 written in the program's interface.
 */
module SwitchDelivery {
  import opened Wrappers
  import opened CommaLists
  import opened EmbedderSwitches
  import opened EmbedderSwitchTheorems

  /** Bit 8 is for all children, bit 2 for the GPU process, bit 4 for renderers. */
  predicate ReachesChild(scope: bv32, processType: string) {
    || scope & 8 != 0
    || (scope & 2 != 0 && processType == "gpu-process")
    || (scope & 4 != 0 && processType == "renderer")
  }

  /** Bit 1 is for the browser. */
  predicate ReachesBrowser(scope: bv32) {
    scope & 1 != 0
  }

  function TypeOf(c: Switches): string {
    if "type" in c then c["type"] else ""
  }

  type Reach = bv32 -> bool

  /** The last value that the policy gives the switch within reach; a switch without a value has the empty one. */
  function LastGiven(policy: seq<EmbedderSwitch>, reaches: Reach, name: string): Option<string> {
    if policy == [] then None
    else
      var last := policy[|policy| - 1];
      if last.name == name && reaches(last.scope) then
        Some(if last.value.None? then "" else last.value.value)
      else LastGiven(policy[..|policy| - 1], reaches, name)
  }

  /** The item was there or was offered by an entry within reach, and no later one cleared the switch. */
  predicate Listed(policy: seq<EmbedderSwitch>, reaches: Reach, name: string, before: string, t: string) {
    if policy == [] then t in Tokens(before)
    else
      var last, earlier := policy[|policy| - 1], Listed(policy[..|policy| - 1], reaches, name, before, t);
      if last.name != name || !reaches(last.scope) then earlier
      else last.value.Some? && (earlier || t in Tokens(last.value.value))
  }

  // ---------- Scopes ----------

  ghost predicate Means(scope: bv32, reaches: Reach) {
    scope != 0 && forall b: bv32 :: reaches(b) <==> b & scope != 0
  }

  lemma ChildScopeMeans(c: Switches)
    ensures Means(ScopeForChildProcess(c), b => ReachesChild(b, TypeOf(c)))
    ensures ScopeForChildProcess(c) & GPU_CHILD_SCOPE != 0 <==> TypeOf(c) == "gpu-process"
  {
    hide ScopeOfType, ReachesChild;
    var processType := TypeOf(c);
    assert ScopeForChildProcess(c) == ScopeOfType(processType) by { TypesDiffer(); }
    ChildScope(processType);
    forall b: bv32 ensures ReachesChild(b, processType) <==> b & ScopeOfType(processType) != 0 {
      ChildBits(b, processType);
    }
  }

  lemma TypesDiffer()
    ensures GPU_PROCESS == "gpu-process" && RENDERER_PROCESS == "renderer" && PROCESS_TYPE == "type"
    ensures GPU_PROCESS != RENDERER_PROCESS
  {
    assert |GPU_PROCESS| == 11 && |RENDERER_PROCESS| == 8;
  }

  lemma ChildBits(b: bv32, processType: string)
    ensures ReachesChild(b, processType) <==> b & ScopeOfType(processType) != 0
  {
    TypesDiffer();
    EitherBit(b);
  }

  lemma EitherBit(b: bv32)
    ensures b & (ALL_CHILDREN_SCOPE | GPU_CHILD_SCOPE) != 0 <==> b & 8 != 0 || b & 2 != 0
    ensures b & (ALL_CHILDREN_SCOPE | RENDERER_CHILD_SCOPE) != 0 <==> b & 8 != 0 || b & 4 != 0
  {
  }

  lemma ChildScope(processType: string)
    ensures ScopeOfType(processType) != 0
    ensures ScopeOfType(processType) & GPU_CHILD_SCOPE != 0 <==> processType == "gpu-process"
  {
    TypesDiffer();
  }

  lemma InReach(s: EmbedderSwitch, scope: bv32, reaches: Reach)
    requires Means(scope, reaches)
    ensures scope != 0 && (InScope(s, scope) <==> reaches(s.scope))
  {
  }

  lemma BrowserScopeMeans()
    ensures Means(BROWSER_SCOPE, b => ReachesBrowser(b))
  {
  }

  // ---------- One switch ----------

  /** A name whose values are merged: both feature switches. */
  predicate IsFeatureSwitch(name: string) {
    name == "enable-features" || name == "disable-features"
  }

  lemma FeatureNames(name: string)
    ensures IsFeatureSwitch(name) <==> IsCommaMergedSwitch(name)
  {
  }

  lemma {:induction false} LastIsSet(c: Switches, policy: seq<EmbedderSwitch>, scope: bv32, reaches: Reach,
                                     name: string)
    requires Means(scope, reaches) && name != "" && !IsFeatureSwitch(name)
    ensures var given := LastGiven(policy, reaches, name);
            Lookup(AppendSwitchesForScope(c, policy, scope), name) == if given.Some? then given else Lookup(c, name)
    decreases |policy|
  {
    hide AppendSwitch, Lookup, MergeCommaSeparatedValues, IsFeatureSwitch, IsCommaMergedSwitch, Means, InScope;
    FeatureNames(name);
    if policy != [] {
      var n := |policy| - 1;
      LastIsSet(c, policy[..n], scope, reaches, name);
      InReach(policy[n], scope, reaches);
      SwitchGiven(AppendSwitchesForScope(c, policy[..n], scope), policy[n], name);
    }
  }

  lemma {:induction false} ListedExactly(c: Switches, policy: seq<EmbedderSwitch>, scope: bv32, reaches: Reach,
                                         name: string, t: string)
    requires Means(scope, reaches) && IsFeatureSwitch(name)
    ensures t in Tokens(ValueOf(AppendSwitchesForScope(c, policy, scope), name)) <==>
            Listed(policy, reaches, name, ValueOf(c, name), t)
    decreases |policy|
  {
    hide AppendSwitch, MergeCommaSeparatedValues, IsFeatureSwitch, IsCommaMergedSwitch, Tokens, Means, InScope;
    FeatureNames(name);
    assert name != "" by { FeatureNotEmpty(name); }
    if policy != [] {
      var n := |policy| - 1;
      var before := AppendSwitchesForScope(c, policy[..n], scope);
      ListedExactly(c, policy[..n], scope, reaches, name, t);
      InReach(policy[n], scope, reaches);
      SwitchGiven(before, policy[n], name);
      MergeIsUnion(ValueOf(before, name), Text(policy[n].value), t);
      NoTokens();
    }
  }

  lemma FeatureNotEmpty(name: string)
    requires IsFeatureSwitch(name)
    ensures name != ""
  {
    assert "enable-features"[0] == 'e' && "disable-features"[0] == 'd';
  }

  // ---------- The browser and the children ----------

  /** The browser gets the last value that the policy gives it, and any other switch stays as it was. */
  lemma DeliveredToBrowser(c: Switches, policy: seq<EmbedderSwitch>, name: string)
    requires name != "" && !IsFeatureSwitch(name)
    ensures var given := LastGiven(policy, b => ReachesBrowser(b), name);
            Lookup(AppendEmbedderSwitchesForBrowser(c, policy), name) == if given.Some? then given else Lookup(c, name)
  {
    hide AppendSwitchesForScope, LastGiven;
    BrowserScopeMeans();
    LastIsSet(c, policy, BROWSER_SCOPE, b => ReachesBrowser(b), name);
  }

  lemma BrowserFeatures(c: Switches, policy: seq<EmbedderSwitch>, name: string, t: string)
    requires IsFeatureSwitch(name)
    ensures t in Tokens(ValueOf(AppendEmbedderSwitchesForBrowser(c, policy), name)) <==>
            Listed(policy, b => ReachesBrowser(b), name, ValueOf(c, name), t)
  {
    hide AppendSwitchesForScope, Tokens, Listed;
    BrowserScopeMeans();
    ListedExactly(c, policy, BROWSER_SCOPE, b => ReachesBrowser(b), name, t);
  }

  /** The two switches that every GPU process gets, without a value. */
  predicate IsGpuDefault(name: string) {
    name == "disable-wayland-gbm-surfaceless" || name == "browserd-force-gles2-context"
  }

  lemma DefaultNames()
    ensures IsGpuDefault(DISABLE_WAYLAND_GBM_SURFACELESS) && IsGpuDefault(FORCE_GLES2_CONTEXT)
    ensures !IsFeatureSwitch(DISABLE_WAYLAND_GBM_SURFACELESS) && !IsFeatureSwitch(FORCE_GLES2_CONTEXT)
    ensures IsFeatureSwitch(DISABLE_FEATURES) && IsFeatureSwitch(ENABLE_FEATURES)
    ensures !IsGpuDefault(DISABLE_FEATURES) && !IsGpuDefault(ENABLE_FEATURES)
    ensures forall name :: IsGpuDefault(name) ==> name == DISABLE_WAYLAND_GBM_SURFACELESS || name == FORCE_GLES2_CONTEXT
  {
    NamesDiffer();
  }

  /**
   A child gets the last value that the policy gives all children or its own kind, except that a GPU process
   ends with its two switches without a value; any other switch stays as it was.
   */
  lemma DeliveredToChild(c: Switches, policy: seq<EmbedderSwitch>, name: string)
    requires name != "" && !IsFeatureSwitch(name)
    ensures var given := LastGiven(policy, b => ReachesChild(b, TypeOf(c)), name);
            Lookup(AppendEmbedderSwitchesForChild(c, policy), name) ==
            if IsGpuDefault(name) && TypeOf(c) == "gpu-process" then Some("")
            else if given.Some? then given else Lookup(c, name)
  {
    hide AppendSwitchesForScope, LastGiven, ScopeForChildProcess, IsFeatureSwitch, IsGpuDefault, Tokens,
         AppendDefaultGpuChildSwitches;
    var scope := ScopeForChildProcess(c);
    ChildScopeMeans(c);
    LastIsSet(c, policy, scope, b => ReachesChild(b, TypeOf(c)), name);
    DefaultsElsewhere(AppendSwitchesForScope(c, policy, scope), scope, name);
  }

  lemma DefaultsElsewhere(c: Switches, scope: bv32, name: string)
    requires name != "" && !IsFeatureSwitch(name)
    ensures Lookup(AppendDefaultGpuChildSwitches(c, scope), name) ==
            if IsGpuDefault(name) && scope & GPU_CHILD_SCOPE != 0 then Some("") else Lookup(c, name)
  {
    hide Tokens, MergeCommaSeparatedValues, IsFeatureSwitch, IsGpuDefault;
    DefaultsReplay(c, scope, name);
    DefaultNames();
  }

  const FALLBACK := "FallbackToSWIfGLES3NotSupported"

  /**
   A child's feature list holds what was there or was offered to it since the last clearing. In a GPU
   process one feature joins the disabled ones, unless it is among the enabled ones by then.
   */
  lemma ChildFeatureList(c: Switches, policy: seq<EmbedderSwitch>, name: string, t: string)
    requires IsFeatureSwitch(name)
    ensures var reaches := (b: bv32) => ReachesChild(b, TypeOf(c));
            t in Tokens(ValueOf(AppendEmbedderSwitchesForChild(c, policy), name)) <==>
            || Listed(policy, reaches, name, ValueOf(c, name), t)
            || (name == "disable-features" && TypeOf(c) == "gpu-process" && t == FALLBACK &&
                !Listed(policy, reaches, "enable-features", ValueOf(c, "enable-features"), t))
  {
    hide AppendSwitchesForScope, Listed, ScopeForChildProcess, IsFeatureSwitch, Tokens, AppendDefaultGpuChildSwitches;
    var scope := ScopeForChildProcess(c);
    var reaches := (b: bv32) => ReachesChild(b, TypeOf(c));
    var mid := AppendSwitchesForScope(c, policy, scope);
    ChildScopeMeans(c);
    DefaultNames();
    ListedExactly(c, policy, scope, reaches, name, t);
    ListedExactly(c, policy, scope, reaches, "enable-features", t);
    DefaultFeatures(mid, scope, name, t);
  }

  lemma DefaultFeatures(c: Switches, scope: bv32, name: string, t: string)
    requires IsFeatureSwitch(name)
    ensures t in Tokens(ValueOf(AppendDefaultGpuChildSwitches(c, scope), name)) <==>
            || t in Tokens(ValueOf(c, name))
            || (name == "disable-features" && scope & GPU_CHILD_SCOPE != 0 && t == FALLBACK &&
                t !in Tokens(ValueOf(c, "enable-features")))
  {
    hide Tokens, MergeCommaSeparatedValues, IsGpuDefault;
    FeatureNotEmpty(name);
    NamesDiffer();
    FeatureNames(name);
    DefaultsReplay(c, scope, name);
    FallbackIsOneToken();
    MergeIsUnion(ValueOf(c, name), FALLBACK_FEATURE, t);
  }

  /** One entry: a child gets it exactly when it is for all children or for the child's own kind. */
  lemma OneEntryDelivered(c: Switches, s: EmbedderSwitch)
    requires s.name != "" && !IsFeatureSwitch(s.name) && !IsGpuDefault(s.name) && s.name !in c
    ensures s.name in AppendEmbedderSwitchesForChild(c, [s]) <==>
            || s.scope & 8 != 0
            || (s.scope & 2 != 0 && TypeOf(c) == "gpu-process")
            || (s.scope & 4 != 0 && TypeOf(c) == "renderer")
    ensures s.name in AppendEmbedderSwitchesForBrowser(c, [s]) <==> s.scope & 1 != 0
  {
    hide AppendEmbedderSwitchesForChild, AppendEmbedderSwitchesForBrowser, IsFeatureSwitch, IsGpuDefault;
    DeliveredToChild(c, [s], s.name);
    DeliveredToBrowser(c, [s], s.name);
    assert [s][..0] == [];
  }
}
