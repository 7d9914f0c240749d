/**
 The embedder's switch policy: a list of switches, each set, cleared or merged into the command line of
 the processes in its scope.
 */
module EmbedderSwitches {
  import opened Wrappers
  import opened CommaLists

  const BROWSER_SCOPE: bv32 := 1
  const GPU_CHILD_SCOPE: bv32 := 2
  const RENDERER_CHILD_SCOPE: bv32 := 4
  const ALL_CHILDREN_SCOPE: bv32 := 8

  const ENABLE_FEATURES := "enable-features"
  const DISABLE_FEATURES := "disable-features"
  const PROCESS_TYPE := "type"
  const GPU_PROCESS := "gpu-process"
  const RENDERER_PROCESS := "renderer"
  const FALLBACK_FEATURE := "FallbackToSWIfGLES3NotSupported"
  const DISABLE_WAYLAND_GBM_SURFACELESS := "disable-wayland-gbm-surfaceless"
  const FORCE_GLES2_CONTEXT := "browserd-force-gles2-context"

  datatype EmbedderSwitch = EmbedderSwitch(name: string, value: Option<string>, scope: bv32)

  /** A command line's switches and their values. */
  type Switches = map<string, string>

  function Lookup(c: Switches, name: string): Option<string> {
    if name in c then Some(c[name]) else None
  }

  function ValueOf(c: Switches, name: string): string {
    if name in c then c[name] else ""
  }

  predicate IsCommaMergedSwitch(name: string) {
    name == DISABLE_FEATURES || name == ENABLE_FEATURES
  }

  // ---------- Merging ----------

  /** The first list, then each new item of the second as it comes. */
  function Extend(values: seq<string>, incoming: seq<string>): seq<string>
    decreases |incoming|
  {
    if incoming == [] then values
    else
      var n := |incoming| - 1;
      var before := Extend(values, incoming[..n]);
      if incoming[n] in before then before else before + [incoming[n]]
  }

  function MergeCommaSeparatedValues(existing: string, incoming: string): string {
    if existing == "" then incoming
    else if incoming == "" then existing
    else Join(Extend(Tokens(existing), Tokens(incoming)))
  }

  // ---------- The operations on a command line ----------

  function AppendSwitch(c: Switches, s: EmbedderSwitch): Switches {
    if s.name == "" then c
    else match s.value
      case None => c[s.name := ""]
      case Some(value) =>
        if IsCommaMergedSwitch(s.name) then c[s.name := MergeCommaSeparatedValues(ValueOf(c, s.name), value)]
        else c[s.name := value]
  }

  function ScopeOfType(processType: string): bv32 {
    if processType == GPU_PROCESS then ALL_CHILDREN_SCOPE | GPU_CHILD_SCOPE
    else if processType == RENDERER_PROCESS then ALL_CHILDREN_SCOPE | RENDERER_CHILD_SCOPE
    else ALL_CHILDREN_SCOPE
  }

  function ScopeForChildProcess(c: Switches): bv32 {
    ScopeOfType(ValueOf(c, PROCESS_TYPE))
  }

  predicate InScope(s: EmbedderSwitch, scope: bv32) {
    s.scope & scope != 0
  }

  function AppendSwitchesForScope(c: Switches, policy: seq<EmbedderSwitch>, scope: bv32): Switches
    decreases |policy|
  {
    if scope == 0 || policy == [] then c
    else
      var n := |policy| - 1;
      var before := AppendSwitchesForScope(c, policy[..n], scope);
      if InScope(policy[n], scope) then AppendSwitch(before, policy[n]) else before
  }

  predicate HasCommaSeparatedValue(c: Switches, name: string, expected: string) {
    expected in Tokens(ValueOf(c, name))
  }

  const WAYLAND_DEFAULT := EmbedderSwitch(DISABLE_WAYLAND_GBM_SURFACELESS, None, GPU_CHILD_SCOPE)
  const GLES2_DEFAULT := EmbedderSwitch(FORCE_GLES2_CONTEXT, None, GPU_CHILD_SCOPE)
  const FALLBACK_DEFAULT := EmbedderSwitch(DISABLE_FEATURES, Some(FALLBACK_FEATURE), GPU_CHILD_SCOPE)

  function AppendDefaultGpuChildSwitches(c: Switches, scope: bv32): Switches {
    if scope & GPU_CHILD_SCOPE == 0 then c
    else
      var fixed := AppendSwitch(AppendSwitch(c, WAYLAND_DEFAULT), GLES2_DEFAULT);
      if HasCommaSeparatedValue(fixed, ENABLE_FEATURES, FALLBACK_FEATURE) then fixed
      else AppendSwitch(fixed, FALLBACK_DEFAULT)
  }

  function AppendEmbedderSwitchesForBrowser(c: Switches, policy: seq<EmbedderSwitch>): Switches {
    AppendSwitchesForScope(c, policy, BROWSER_SCOPE)
  }

  function AppendEmbedderSwitchesForChild(c: Switches, policy: seq<EmbedderSwitch>): Switches {
    var scope := ScopeForChildProcess(c);
    AppendDefaultGpuChildSwitches(AppendSwitchesForScope(c, policy, scope), scope)
  }

  // ---------- What merging does to the items ----------

  /** The items of `incoming` that are new: not in `existing`, and not seen earlier in `incoming`. */
  function NewTokens(existing: seq<string>, incoming: seq<string>): seq<string>
    decreases |incoming|
  {
    if incoming == [] then []
    else
      var n := |incoming| - 1;
      NewTokens(existing, incoming[..n]) +
      (if incoming[n] in existing || incoming[n] in incoming[..n] then [] else [incoming[n]])
  }

  lemma {:induction false} NewTokensMembers(existing: seq<string>, incoming: seq<string>, t: string)
    ensures t in NewTokens(existing, incoming) <==> t in incoming && t !in existing
    decreases |incoming|
  {
    if incoming != [] {
      var n := |incoming| - 1;
      NewTokensMembers(existing, incoming[..n], t);
      assert incoming == incoming[..n] + [incoming[n]];
    }
  }

  lemma {:induction false} ExtendIsAppend(existing: seq<string>, incoming: seq<string>)
    ensures Extend(existing, incoming) == existing + NewTokens(existing, incoming)
    decreases |incoming|
  {
    if incoming != [] {
      var n := |incoming| - 1;
      ExtendIsAppend(existing, incoming[..n]);
      NewTokensMembers(existing, incoming[..n], incoming[n]);
    }
  }

  lemma ExtendClean(existing: seq<string>, incoming: seq<string>)
    requires AllClean(existing) && AllClean(incoming)
    ensures AllClean(Extend(existing, incoming))
  {
    hide Clean;
    ExtendIsAppend(existing, incoming);
    forall t | t in NewTokens(existing, incoming) ensures Clean(t) {
      NewTokensMembers(existing, incoming, t);
    }
  }

  lemma NoTokens()
    ensures Tokens("") == []
  {
  }

  /**
   The items of a merge: into an empty string, the incoming ones as they are; otherwise the existing
   ones in order, followed by the first occurrences of the new ones.
   */
  lemma MergeTokens(existing: string, incoming: string)
    ensures Tokens(MergeCommaSeparatedValues(existing, incoming)) ==
            if existing == "" then Tokens(incoming)
            else Tokens(existing) + NewTokens(Tokens(existing), Tokens(incoming))
  {
    hide Tokens, Join, AllClean;
    if existing != "" {
      ExtendIsAppend(Tokens(existing), Tokens(incoming));
      if incoming == "" {
        NoTokens();
      } else {
        ExtendClean(Tokens(existing), Tokens(incoming));
        SplitJoin(Extend(Tokens(existing), Tokens(incoming)));
      }
    }
  }

  /** A merge holds exactly the items of either string. */
  lemma MergeIsUnion(existing: string, incoming: string, t: string)
    ensures t in Tokens(MergeCommaSeparatedValues(existing, incoming)) <==>
            t in Tokens(existing) || t in Tokens(incoming)
  {
    hide Tokens, MergeCommaSeparatedValues;
    MergeTokens(existing, incoming);
    NewTokensMembers(Tokens(existing), Tokens(incoming), t);
    NoTokens();
  }

  /** Merging items that are all there already leaves the list of items as it is. */
  lemma MergeNothingNew(existing: string, incoming: string)
    requires forall t :: t in Tokens(incoming) ==> t in Tokens(existing)
    ensures Tokens(MergeCommaSeparatedValues(existing, incoming)) == Tokens(existing)
  {
    hide Tokens, MergeCommaSeparatedValues;
    MergeTokens(existing, incoming);
    NoTokens();
    var added := NewTokens(Tokens(existing), Tokens(incoming));
    if added != [] {
      NewTokensMembers(Tokens(existing), Tokens(incoming), added[0]);
    }
  }

  /** Merging the same string again changes no item. */
  lemma MergeTwice(existing: string, incoming: string)
    ensures Tokens(MergeCommaSeparatedValues(MergeCommaSeparatedValues(existing, incoming), incoming)) ==
            Tokens(MergeCommaSeparatedValues(existing, incoming))
  {
    hide Tokens, MergeCommaSeparatedValues;
    var once := MergeCommaSeparatedValues(existing, incoming);
    forall t | t in Tokens(incoming) ensures t in Tokens(once) {
      MergeIsUnion(existing, incoming, t);
    }
    MergeNothingNew(once, incoming);
  }

  /** Merging a new item puts a comma and the item at the end of the list. */
  lemma MergeAppends(tokens: seq<string>, t: string)
    requires tokens != [] && AllClean(tokens) && Clean(t) && t !in tokens
    ensures MergeCommaSeparatedValues(Join(tokens), t) == Join(tokens) + "," + t
    ensures Join([t]) == t
  {
    hide Tokens, Clean;
    SplitJoin(tokens);
    assert Join([t]) == t;
    assert AllClean([t]);
    SplitJoin([t]);
    assert Extend(tokens, [t]) == tokens + [t] by {
      assert [t][..0] == [] && Extend(tokens, []) == tokens;
    }
    JoinSnoc(tokens, t);
    CleanNotEmpty(tokens[0]);
    CleanNotEmpty(t);
    assert Join(tokens) != "" by { JoinStarts(tokens); }
  }

  lemma CleanNotEmpty(t: string)
    requires Clean(t)
    ensures t != ""
  {
  }

  lemma JoinStarts(tokens: seq<string>)
    requires tokens != []
    ensures tokens[0] <= Join(tokens)
  {
  }
}
