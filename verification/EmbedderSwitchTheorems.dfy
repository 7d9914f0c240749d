/** What the switch policy does to a command line, name by name, and what applying it again does. */
module EmbedderSwitchTheorems {
  import opened Wrappers
  import opened CommaLists
  import opened EmbedderSwitches

  // ---------- One switch at a time ----------

  /** The values the policy gives one switch within a scope, in order; None clears it. */
  function Relevant(policy: seq<EmbedderSwitch>, scope: bv32, name: string): seq<Option<string>>
    decreases |policy|
  {
    if policy == [] then []
    else
      var n := |policy| - 1;
      Relevant(policy[..n], scope, name) +
      (if InScope(policy[n], scope) && policy[n].name == name then [policy[n].value] else [])
  }

  function Text(v: Option<string>): string {
    if v.Some? then v.value else ""
  }

  function Replay(name: string, v: Option<string>, values: seq<Option<string>>): Option<string>
    decreases |values|
  {
    if values == [] then v
    else
      var n := |values| - 1;
      Give(name, Replay(name, v, values[..n]), values[n])
  }

  function Give(name: string, before: Option<string>, value: Option<string>): Option<string> {
    Some(if value.None? then ""
         else if IsCommaMergedSwitch(name) then MergeCommaSeparatedValues(Text(before), value.value)
         else value.value)
  }

  lemma SwitchGiven(c: Switches, s: EmbedderSwitch, name: string)
    ensures Lookup(AppendSwitch(c, s), name) ==
            if s.name == name != "" then Give(name, Lookup(c, name), s.value) else Lookup(c, name)
  {
    hide MergeCommaSeparatedValues, IsCommaMergedSwitch;
  }

  lemma ReplaySnoc(name: string, v: Option<string>, values: seq<Option<string>>, value: Option<string>)
    ensures Replay(name, v, values + [value]) == Give(name, Replay(name, v, values), value)
  {
    hide Give;
    assert (values + [value])[..|values|] == values;
  }

  /**
   What becomes of one switch depends on its own value and on the in-scope switches of the policy with
   its name, in their order, and on nothing else.
   */
  lemma {:induction false} OnlyRelevantSwitchesMatter(c: Switches, policy: seq<EmbedderSwitch>, scope: bv32,
          name: string)
    ensures Lookup(AppendSwitchesForScope(c, policy, scope), name) ==
            (if name == "" then Lookup(c, "") else Replay(name, Lookup(c, name), Relevant(policy, scope, name)))
    decreases |policy|
  {
    hide Give, AppendSwitch, InScope, Lookup;
    if scope == 0 {
      NothingInNoScope(policy, name);
    } else if policy != [] {
      var n := |policy| - 1;
      OnlyRelevantSwitchesMatter(c, policy[..n], scope, name);
      var earlier := Relevant(policy[..n], scope, name);
      SwitchGiven(AppendSwitchesForScope(c, policy[..n], scope), policy[n], name);
      ReplaySnoc(name, Lookup(c, name), earlier, policy[n].value);
      assert earlier + [] == earlier;
    }
  }

  lemma {:induction false} NothingInNoScope(policy: seq<EmbedderSwitch>, name: string)
    ensures Relevant(policy, 0, name) == []
    decreases |policy|
  {
    if policy != [] {
      NothingInNoScope(policy[..|policy| - 1], name);
      assert !InScope(policy[|policy| - 1], 0);
    }
  }

  // ---------- Replaying twice ----------

  /** Equal values; for the feature switches, equal lists of items. */
  predicate SameValue(name: string, a: Option<string>, b: Option<string>) {
    if IsCommaMergedSwitch(name) then a.Some? == b.Some? && Tokens(Text(a)) == Tokens(Text(b))
    else a == b
  }

  predicate Clears(values: seq<Option<string>>) {
    None in values
  }

  lemma {:induction false} ClearingForgets(name: string, v: Option<string>, w: Option<string>,
          values: seq<Option<string>>)
    requires Clears(values) || (!IsCommaMergedSwitch(name) && values != [])
    ensures Replay(name, v, values) == Replay(name, w, values)
    decreases |values|
  {
    hide MergeCommaSeparatedValues, IsCommaMergedSwitch;
    var n := |values| - 1;
    if values[n].Some? && IsCommaMergedSwitch(name) {
      assert values == values[..n] + [values[n]];
      ClearingForgets(name, v, w, values[..n]);
    }
  }

  predicate Offered(values: seq<Option<string>>, t: string) {
    exists k :: 0 <= k < |values| && values[k].Some? && t in Tokens(values[k].value)
  }

  lemma OfferedSnoc(values: seq<Option<string>>, value: Option<string>, t: string)
    ensures Offered(values + [value], t) <==> Offered(values, t) || (value.Some? && t in Tokens(value.value))
  {
    hide Tokens;
    var all := values + [value];
    assert all[|values|] == value;
    assert forall k :: 0 <= k < |values| ==> all[k] == values[k];
  }

  /** Without a clearing, a feature switch ends with exactly its old items and those offered. */
  lemma {:induction false} MergesCollect(name: string, v: Option<string>, values: seq<Option<string>>, t: string)
    requires IsCommaMergedSwitch(name) && !Clears(values)
    ensures t in Tokens(Text(Replay(name, v, values))) <==> t in Tokens(Text(v)) || Offered(values, t)
    decreases |values|
  {
    hide MergeCommaSeparatedValues, IsCommaMergedSwitch, Tokens, Offered;
    if values == [] {
      NothingOffered(t);
    } else {
      var n := |values| - 1;
      assert values == values[..n] + [values[n]];
      MergesCollect(name, v, values[..n], t);
      OfferedSnoc(values[..n], values[n], t);
      MergeIsUnion(Text(Replay(name, v, values[..n])), values[n].value, t);
    }
  }

  lemma NothingOffered(t: string)
    ensures !Offered([], t)
  {
  }

  lemma {:induction false} MergesAbsorbed(name: string, v: Option<string>, values: seq<Option<string>>)
    requires IsCommaMergedSwitch(name) && !Clears(values) && (v.Some? || values == [])
    requires forall t :: Offered(values, t) ==> t in Tokens(Text(v))
    ensures SameValue(name, Replay(name, v, values), v)
    decreases |values|
  {
    hide MergeCommaSeparatedValues, IsCommaMergedSwitch, Tokens, Offered;
    if values != [] {
      var n := |values| - 1;
      assert values == values[..n] + [values[n]];
      forall t | Offered(values[..n], t) || t in Tokens(values[n].value) ensures t in Tokens(Text(v)) {
        OfferedSnoc(values[..n], values[n], t);
      }
      MergesAbsorbed(name, v, values[..n]);
      MergeNothingNew(Text(Replay(name, v, values[..n])), values[n].value);
    }
  }

  lemma ReplayTwice(name: string, v: Option<string>, values: seq<Option<string>>)
    ensures SameValue(name, Replay(name, Replay(name, v, values), values), Replay(name, v, values))
  {
    hide MergeCommaSeparatedValues, IsCommaMergedSwitch, Tokens, Offered;
    var once := Replay(name, v, values);
    if Clears(values) || (!IsCommaMergedSwitch(name) && values != []) {
      ClearingForgets(name, v, once, values);
    } else if values != [] {
      forall t | Offered(values, t) ensures t in Tokens(Text(once)) {
        MergesCollect(name, v, values, t);
      }
      MergesAbsorbed(name, once, values);
    }
  }

  // ---------- Feature items after any history ----------

  /** Nothing clears the switch from position k on. */
  predicate KeptFrom(values: seq<Option<string>>, k: nat) {
    forall j :: k <= j < |values| ==> values[j].Some?
  }

  predicate OfferedAt(values: seq<Option<string>>, k: nat, t: string)
    requires k < |values|
  {
    values[k].Some? && t in Tokens(values[k].value)
  }

  /** The item was there, or was offered, and has not been cleared since. */
  predicate Survives(v: Option<string>, values: seq<Option<string>>, t: string) {
    || (KeptFrom(values, 0) && t in Tokens(Text(v)))
    || (exists k :: 0 <= k < |values| && OfferedAt(values, k, t) && KeptFrom(values, k))
  }

  lemma KeptSnoc(values: seq<Option<string>>, value: Option<string>, k: nat)
    requires k <= |values|
    ensures KeptFrom(values + [value], k) <==> KeptFrom(values, k) && value.Some?
  {
    var all := values + [value];
    assert all[|values|] == value;
    assert forall j :: 0 <= j < |values| ==> all[j] == values[j];
  }

  lemma SurvivesSnoc(v: Option<string>, values: seq<Option<string>>, value: Option<string>, t: string)
    ensures Survives(v, values + [value], t) <==>
            value.Some? && (Survives(v, values, t) || t in Tokens(value.value))
  {
    hide Tokens, KeptFrom;
    var all := values + [value];
    forall k: nat | k <= |values| ensures KeptFrom(all, k) <==> KeptFrom(values, k) && value.Some? {
      KeptSnoc(values, value, k);
    }
    forall k: nat | k < |values| ensures OfferedAt(all, k, t) == OfferedAt(values, k, t) {
      assert all[k] == values[k];
    }
    assert KeptFrom(values, |values|) by {
      NothingLeft(values);
    }
    assert all[|values|] == value;
    assert OfferedAt(all, |values|, t) <==> value.Some? && t in Tokens(value.value);
  }

  lemma NothingLeft(values: seq<Option<string>>)
    ensures KeptFrom(values, |values|)
  {
  }

  /**
   The features of a child: an item is on the list exactly when it was there before, or some value
   offered it, and no later value cleared the switch.
   */
  lemma {:induction false} FeaturesOfReplay(name: string, v: Option<string>, values: seq<Option<string>>, t: string)
    requires IsCommaMergedSwitch(name)
    ensures t in Tokens(Text(Replay(name, v, values))) <==> Survives(v, values, t)
    decreases |values|
  {
    hide MergeCommaSeparatedValues, IsCommaMergedSwitch, Tokens, Survives;
    if values == [] {
      SurvivesNothing(v, t);
    } else {
      var n := |values| - 1;
      assert values == values[..n] + [values[n]];
      FeaturesOfReplay(name, v, values[..n], t);
      SurvivesSnoc(v, values[..n], values[n], t);
      if values[n].Some? {
        MergeIsUnion(Text(Replay(name, v, values[..n])), values[n].value, t);
      } else {
        NoTokens();
      }
    }
  }

  lemma SurvivesNothing(v: Option<string>, t: string)
    ensures Survives(v, [], t) <==> t in Tokens(Text(v))
  {
  }

  // ---------- A child's command line ----------

  /**
   The values a child's switch gets within a scope: those of the policy, then the GPU defaults. The
   fallback feature is disabled unless it is enabled by then; `enabled` is what enable-features held.
   */
  function Entries(policy: seq<EmbedderSwitch>, scope: bv32, enabled: Option<string>, name: string)
    : seq<Option<string>>
  {
    Relevant(policy, scope, name) +
    Defaults(scope, Survives(enabled, Relevant(policy, scope, ENABLE_FEATURES), FALLBACK_FEATURE), name)
  }

  function Defaults(scope: bv32, fallbackEnabled: bool, name: string): seq<Option<string>> {
    if scope & GPU_CHILD_SCOPE == 0 then []
    else if name == DISABLE_WAYLAND_GBM_SURFACELESS || name == FORCE_GLES2_CONTEXT then [None]
    else if name == DISABLE_FEATURES && !fallbackEnabled then [Some(FALLBACK_FEATURE)]
    else []
  }

  function ChildValues(c: Switches, policy: seq<EmbedderSwitch>, name: string): seq<Option<string>> {
    Entries(policy, ScopeForChildProcess(c), Lookup(c, ENABLE_FEATURES), name)
  }

  lemma NamesDiffer()
    ensures |DISABLE_FEATURES| == 16 && |ENABLE_FEATURES| == 15 && |PROCESS_TYPE| == 4
    ensures |DISABLE_WAYLAND_GBM_SURFACELESS| == 31 && |FORCE_GLES2_CONTEXT| == 28 && |GPU_PROCESS| == 11
  {
  }

  lemma DefaultsReplay(c: Switches, scope: bv32, name: string)
    requires name != ""
    ensures Lookup(AppendDefaultGpuChildSwitches(c, scope), name) ==
            Replay(name, Lookup(c, name),
                   Defaults(scope, HasCommaSeparatedValue(c, ENABLE_FEATURES, FALLBACK_FEATURE), name))
  {
    hide MergeCommaSeparatedValues, Tokens;
    assert DISABLE_WAYLAND_GBM_SURFACELESS[0] == 'd';
    NamesDiffer();
  }

  lemma FallbackEnabled(c: Switches, policy: seq<EmbedderSwitch>, scope: bv32)
    ensures HasCommaSeparatedValue(AppendSwitchesForScope(c, policy, scope), ENABLE_FEATURES, FALLBACK_FEATURE) <==>
            Survives(Lookup(c, ENABLE_FEATURES), Relevant(policy, scope, ENABLE_FEATURES), FALLBACK_FEATURE)
  {
    hide Replay, Relevant, AppendSwitchesForScope, Tokens, Survives;
    OnlyRelevantSwitchesMatter(c, policy, scope, ENABLE_FEATURES);
    NamesDiffer();
    FeaturesOfReplay(ENABLE_FEATURES, Lookup(c, ENABLE_FEATURES), Relevant(policy, scope, ENABLE_FEATURES),
                     FALLBACK_FEATURE);
  }

  lemma {:induction false} ReplayOnward(name: string, v: Option<string>, a: seq<Option<string>>, b: seq<Option<string>>)
    ensures Replay(name, v, a + b) == Replay(name, Replay(name, v, a), b)
    decreases |b|
  {
    hide MergeCommaSeparatedValues, IsCommaMergedSwitch;
    if b == [] {
      assert a + b == a;
    } else {
      var n := |b| - 1;
      ReplayOnward(name, v, a, b[..n]);
      assert (a + b)[..|a| + n] == a + b[..n];
      assert (a + b)[|a| + n] == b[n];
    }
  }

  /** A child's switch depends on its own value, the in-scope policy with its name and the GPU defaults only. */
  lemma ChildSwitch(c: Switches, policy: seq<EmbedderSwitch>, name: string)
    requires name != ""
    ensures Lookup(AppendEmbedderSwitchesForChild(c, policy), name) ==
            Replay(name, Lookup(c, name), ChildValues(c, policy, name))
  {
    hide Replay, Relevant, Defaults, AppendSwitchesForScope, AppendDefaultGpuChildSwitches, ScopeForChildProcess,
         HasCommaSeparatedValue, Survives;
    var scope := ScopeForChildProcess(c);
    var mid := AppendSwitchesForScope(c, policy, scope);
    OnlyRelevantSwitchesMatter(c, policy, scope, name);
    DefaultsReplay(mid, scope, name);
    FallbackEnabled(c, policy, scope);
    ReplayOnward(name, Lookup(c, name), Relevant(policy, scope, name),
                 Defaults(scope, HasCommaSeparatedValue(mid, ENABLE_FEATURES, FALLBACK_FEATURE), name));
  }

  /** The same switches with the same values; for the feature switches, the same lists of items. */
  ghost predicate Equivalent(a: Switches, b: Switches) {
    forall name :: SameValue(name, Lookup(a, name), Lookup(b, name))
  }

  lemma NamelessUntouched(c: Switches, policy: seq<EmbedderSwitch>)
    ensures Lookup(AppendEmbedderSwitchesForChild(c, policy), "") == Lookup(c, "")
  {
    hide Relevant, Replay, AppendSwitchesForScope, MergeCommaSeparatedValues, Tokens;
    OnlyRelevantSwitchesMatter(c, policy, ScopeForChildProcess(c), "");
  }

  // ---------- Preparing a child a second time ----------

  /** What the first pass leaves of a switch. */
  function Once(c: Switches, policy: seq<EmbedderSwitch>, name: string): Option<string> {
    Replay(name, Lookup(c, name), ChildValues(c, policy, name))
  }

  /** The process type after the first pass: the last one the policy gives in the child's scope, or its own. */
  function NewType(c: Switches, policy: seq<EmbedderSwitch>): string {
    var types := Relevant(policy, ScopeForChildProcess(c), PROCESS_TYPE);
    if types == [] then ValueOf(c, PROCESS_TYPE) else Text(types[|types| - 1])
  }

  function NewScope(c: Switches, policy: seq<EmbedderSwitch>): bv32 {
    ScopeOfType(NewType(c, policy))
  }

  lemma PlainReplay(name: string, v: Option<string>, values: seq<Option<string>>)
    requires !IsCommaMergedSwitch(name)
    ensures Replay(name, v, values) == if values == [] then v else Some(Text(values[|values| - 1]))
  {
  }

  /** The first pass leaves the child with the scope of its new type. */
  lemma ScopeKept(c: Switches, policy: seq<EmbedderSwitch>)
    ensures ValueOf(AppendEmbedderSwitchesForChild(c, policy), PROCESS_TYPE) == NewType(c, policy)
    ensures ScopeForChildProcess(AppendEmbedderSwitchesForChild(c, policy)) == NewScope(c, policy)
  {
    hide Relevant, Replay, AppendEmbedderSwitchesForChild, Tokens, Survives;
    ChildSwitch(c, policy, PROCESS_TYPE);
    NamesDiffer();
    var types := Relevant(policy, ScopeForChildProcess(c), PROCESS_TYPE);
    assert types + [] == types;
    PlainReplay(PROCESS_TYPE, Lookup(c, PROCESS_TYPE), types);
  }

  /** What the second pass gives a switch, within the scope of the new type. */
  function SecondValues(c: Switches, policy: seq<EmbedderSwitch>, name: string): seq<Option<string>> {
    Entries(policy, NewScope(c, policy), Once(c, policy, ENABLE_FEATURES), name)
  }

  lemma TwiceSwitch(c: Switches, policy: seq<EmbedderSwitch>, name: string)
    requires name != ""
    ensures var once := AppendEmbedderSwitchesForChild(c, policy);
            && Lookup(once, name) == Once(c, policy, name)
            && Lookup(AppendEmbedderSwitchesForChild(once, policy), name) ==
               Replay(name, Once(c, policy, name), SecondValues(c, policy, name))
  {
    hide Replay, Entries, NewScope, ScopeForChildProcess, AppendEmbedderSwitchesForChild;
    var once := AppendEmbedderSwitchesForChild(c, policy);
    ChildSwitch(c, policy, name);
    ChildSwitch(c, policy, ENABLE_FEATURES);
    ChildSwitch(once, policy, name);
    ScopeKept(c, policy);
  }

  /** The values after the last clearing. */
  function SinceClear(values: seq<Option<string>>): seq<Option<string>>
    decreases |values|
  {
    if values == [] || values[|values| - 1].None? then []
    else SinceClear(values[..|values| - 1]) + [values[|values| - 1]]
  }

  /**
   Values that find their work done: there are none; or a plain switch has the last of them; or a
   feature switch has every item offered; or, where they clear it, it lists just what they list afresh.
   */
  ghost predicate Settled(name: string, v: Option<string>, values: seq<Option<string>>) {
    values == [] ||
    (v.Some? &&
     if !IsCommaMergedSwitch(name) then v.value == Text(values[|values| - 1])
     else if !Clears(values) then forall t :: Offered(values, t) ==> t in Tokens(v.value)
     else Tokens(v.value) == Tokens(Text(Replay(name, Some(""), SinceClear(values)))))
  }

  lemma {:induction false} ReplaySinceClear(name: string, v: Option<string>, values: seq<Option<string>>)
    requires Clears(values)
    ensures Replay(name, v, values) == Replay(name, Some(""), SinceClear(values))
    decreases |values|
  {
    hide MergeCommaSeparatedValues, IsCommaMergedSwitch;
    var n := |values| - 1;
    if values[n].Some? {
      assert values == values[..n] + [values[n]];
      ReplaySinceClear(name, v, values[..n]);
      ReplaySnoc(name, Some(""), SinceClear(values[..n]), values[n]);
    }
  }

  /** Values leave a switch as it is exactly when they find their work done. */
  lemma SettledExactly(name: string, v: Option<string>, values: seq<Option<string>>)
    ensures SameValue(name, Replay(name, v, values), v) <==> Settled(name, v, values)
  {
    hide MergeCommaSeparatedValues, IsCommaMergedSwitch, Tokens, Offered;
    if !IsCommaMergedSwitch(name) {
      PlainReplay(name, v, values);
    } else if Clears(values) {
      ReplaySinceClear(name, v, values);
      assert Replay(name, v, values).Some?;
    } else if values != [] {
      forall t ensures t in Tokens(Text(Replay(name, v, values))) <==> t in Tokens(Text(v)) || Offered(values, t) {
        MergesCollect(name, v, values, t);
      }
      if Settled(name, v, values) {
        MergesAbsorbed(name, v, values);
      }
    }
  }

  /** Within the same scope the second pass gives each switch the values of the first. */
  lemma SameValuesAgain(c: Switches, policy: seq<EmbedderSwitch>, name: string)
    requires NewScope(c, policy) == ScopeForChildProcess(c)
    ensures SecondValues(c, policy, name) == ChildValues(c, policy, name)
  {
    hide Replay, Relevant, NewScope, ScopeForChildProcess, Tokens, Survives;
    var relevant := Relevant(policy, ScopeForChildProcess(c), ENABLE_FEATURES);
    var v, once := Lookup(c, ENABLE_FEATURES), Once(c, policy, ENABLE_FEATURES);
    NamesDiffer();
    assert relevant + [] == relevant;
    ReplayTwice(ENABLE_FEATURES, v, relevant);
    FeaturesOfReplay(ENABLE_FEATURES, v, relevant, FALLBACK_FEATURE);
    FeaturesOfReplay(ENABLE_FEATURES, once, relevant, FALLBACK_FEATURE);
  }

  ghost predicate AllSettled(c: Switches, policy: seq<EmbedderSwitch>) {
    forall name: string :: name != "" ==> Settled(name, Once(c, policy, name), SecondValues(c, policy, name))
  }

  /**
   Preparing a child's command line a second time changes nothing, feature lists compared item by
   item, exactly when the policy leaves the process type in the same scope, or every value that the
   policy and the defaults give in the new scope finds its work done.
   */
  lemma ChildTwice(c: Switches, policy: seq<EmbedderSwitch>)
    ensures var once := AppendEmbedderSwitchesForChild(c, policy);
            Equivalent(AppendEmbedderSwitchesForChild(once, policy), once) <==>
            NewScope(c, policy) == ScopeForChildProcess(c) || AllSettled(c, policy)
  {
    hide Replay, Once, SecondValues, AppendEmbedderSwitchesForChild, SameValue, Settled, NewScope,
         ScopeForChildProcess;
    var once := AppendEmbedderSwitchesForChild(c, policy);
    var twice := AppendEmbedderSwitchesForChild(once, policy);
    forall name: string
      ensures SameValue(name, Lookup(twice, name), Lookup(once, name)) <==>
              name == "" || Settled(name, Once(c, policy, name), SecondValues(c, policy, name))
    {
      if name == "" {
        NamelessUntouched(once, policy);
        SameAsItself(name, Lookup(once, name));
      } else {
        TwiceSwitch(c, policy, name);
        SettledExactly(name, Once(c, policy, name), SecondValues(c, policy, name));
      }
    }
    if NewScope(c, policy) == ScopeForChildProcess(c) {
      SameScopeSettled(c, policy);
    }
  }

  lemma SameScopeSettled(c: Switches, policy: seq<EmbedderSwitch>)
    requires NewScope(c, policy) == ScopeForChildProcess(c)
    ensures AllSettled(c, policy)
  {
    hide Replay, SecondValues, ChildValues, SameValue, Settled, NewScope, ScopeForChildProcess;
    forall name: string | name != "" ensures Settled(name, Once(c, policy, name), SecondValues(c, policy, name)) {
      SameValuesAgain(c, policy, name);
      ReplayTwice(name, Lookup(c, name), ChildValues(c, policy, name));
      SettledExactly(name, Once(c, policy, name), ChildValues(c, policy, name));
    }
  }

  lemma SameAsItself(name: string, v: Option<string>)
    ensures SameValue(name, v, v)
  {
  }

  /**
   Whenever the policy makes a GPU process of another child without leaving it both fixed switches,
   the second pass adds what is missing.
   */
  lemma RetypedChildDiffers(c: Switches, policy: seq<EmbedderSwitch>)
    requires !IsGpuChild(c) && NewType(c, policy) == GPU_PROCESS
    requires Once(c, policy, DISABLE_WAYLAND_GBM_SURFACELESS) != Some("") ||
             Once(c, policy, FORCE_GLES2_CONTEXT) != Some("")
    ensures var once := AppendEmbedderSwitchesForChild(c, policy);
            !Equivalent(AppendEmbedderSwitchesForChild(once, policy), once)
  {
    hide Once, SecondValues, Replay, NewType, AppendEmbedderSwitchesForChild, Tokens;
    ScopeKept(c, policy);
    var once := AppendEmbedderSwitchesForChild(c, policy);
    GpuChildHasFallback(once, policy);
    TwiceSwitch(c, policy, DISABLE_WAYLAND_GBM_SURFACELESS);
    TwiceSwitch(c, policy, FORCE_GLES2_CONTEXT);
    NamesDiffer();
    var name := if Once(c, policy, FORCE_GLES2_CONTEXT) != Some("") then FORCE_GLES2_CONTEXT
                else DISABLE_WAYLAND_GBM_SURFACELESS;
    assert !SameValue(name, Lookup(AppendEmbedderSwitchesForChild(once, policy), name), Lookup(once, name));
  }

  lemma OneEntry(s: EmbedderSwitch, scope: bv32, name: string)
    ensures Relevant([s], scope, name) == if InScope(s, scope) && s.name == name then [s.value] else []
  {
    hide InScope;
    assert [s][..0] == [] && Relevant([], scope, name) == [];
  }

  /** An input for which the second pass differs: an untyped child and a policy that types it. */
  lemma RetypedChildExample()
    ensures var policy := [EmbedderSwitch(PROCESS_TYPE, Some(GPU_PROCESS), ALL_CHILDREN_SCOPE)];
            var once := AppendEmbedderSwitchesForChild(map[], policy);
            !Equivalent(AppendEmbedderSwitchesForChild(once, policy), once)
  {
    hide Tokens, AppendEmbedderSwitchesForChild, Survives;
    var policy := [EmbedderSwitch(PROCESS_TYPE, Some(GPU_PROCESS), ALL_CHILDREN_SCOPE)];
    NamesDiffer();
    assert InScope(policy[0], ALL_CHILDREN_SCOPE) && ALL_CHILDREN_SCOPE & GPU_CHILD_SCOPE == 0;
    OneEntry(policy[0], ALL_CHILDREN_SCOPE, PROCESS_TYPE);
    OneEntry(policy[0], ALL_CHILDREN_SCOPE, FORCE_GLES2_CONTEXT);
    assert ChildValues(map[], policy, FORCE_GLES2_CONTEXT) == [];
    RetypedChildDiffers(map[], policy);
  }

  /** Renaming the type within what the policy has settled is harmless: here nothing depends on it. */
  lemma HarmlessRetyping()
    ensures var policy := [EmbedderSwitch(PROCESS_TYPE, Some(RENDERER_PROCESS), ALL_CHILDREN_SCOPE)];
            var once := AppendEmbedderSwitchesForChild(map[], policy);
            && NewScope(map[], policy) != ScopeForChildProcess(map[])
            && Equivalent(AppendEmbedderSwitchesForChild(once, policy), once)
  {
    hide Tokens, AppendEmbedderSwitchesForChild, Survives;
    var policy := [EmbedderSwitch(PROCESS_TYPE, Some(RENDERER_PROCESS), ALL_CHILDREN_SCOPE)];
    var scope := ALL_CHILDREN_SCOPE | RENDERER_CHILD_SCOPE;
    NamesDiffer();
    assert InScope(policy[0], ALL_CHILDREN_SCOPE) && InScope(policy[0], scope);
    assert ALL_CHILDREN_SCOPE & GPU_CHILD_SCOPE == 0 && scope & GPU_CHILD_SCOPE == 0 && scope != ALL_CHILDREN_SCOPE;
    OneEntry(policy[0], ALL_CHILDREN_SCOPE, PROCESS_TYPE);
    assert NewScope(map[], policy) == scope;
    forall name: string | name != ""
      ensures Settled(name, Once(map[], policy, name), SecondValues(map[], policy, name))
    {
      OneEntry(policy[0], ALL_CHILDREN_SCOPE, name);
      OneEntry(policy[0], scope, name);
      assert SecondValues(map[], policy, name) == if name == PROCESS_TYPE then [Some(RENDERER_PROCESS)] else [];
    }
    ChildTwice(map[], policy);
  }

  // ---------- The GPU process ----------

  predicate IsGpuChild(c: Switches) {
    ValueOf(c, PROCESS_TYPE) == GPU_PROCESS
  }

  /**
   Whatever the policy does, a GPU child ends with the fallback feature among its enabled or its
   disabled features, and with both fixed switches set without a value.
   */
  lemma GpuChildHasFallback(c: Switches, policy: seq<EmbedderSwitch>)
    requires IsGpuChild(c)
    ensures var after := AppendEmbedderSwitchesForChild(c, policy);
            && (FALLBACK_FEATURE in Tokens(ValueOf(after, ENABLE_FEATURES)) ||
                FALLBACK_FEATURE in Tokens(ValueOf(after, DISABLE_FEATURES)))
            && Lookup(after, DISABLE_WAYLAND_GBM_SURFACELESS) == Some("")
            && Lookup(after, FORCE_GLES2_CONTEXT) == Some("")
  {
    hide Tokens, MergeCommaSeparatedValues, AppendSwitchesForScope;
    var mid := AppendSwitchesForScope(c, policy, ScopeForChildProcess(c));
    assert |DISABLE_FEATURES| == 16 && |ENABLE_FEATURES| == 15;
    assert |DISABLE_WAYLAND_GBM_SURFACELESS| == 31 && |FORCE_GLES2_CONTEXT| == 28;
    MergeIsUnion(ValueOf(mid, DISABLE_FEATURES), FALLBACK_FEATURE, FALLBACK_FEATURE);
    FallbackIsOneToken();
  }

  lemma FallbackIsOneToken()
    ensures Tokens(FALLBACK_FEATURE) == [FALLBACK_FEATURE]
  {
    hide Tokens;
    assert FALLBACK_FEATURE[0] == 'F' && FALLBACK_FEATURE[|FALLBACK_FEATURE| - 1] == 'd';
    assert Clean(FALLBACK_FEATURE);
    assert Join([FALLBACK_FEATURE]) == FALLBACK_FEATURE;
    SplitJoin([FALLBACK_FEATURE]);
  }

  /** Any other child gets what the policy gives all children or its own kind, and none of the GPU's switches. */
  lemma OtherChildGetsPolicyOnly(c: Switches, policy: seq<EmbedderSwitch>, name: string)
    requires !IsGpuChild(c) && name != ""
    ensures AppendEmbedderSwitchesForChild(c, policy) == AppendSwitchesForScope(c, policy, ScopeForChildProcess(c))
    ensures Lookup(AppendEmbedderSwitchesForChild(c, policy), name) ==
            Replay(name, Lookup(c, name), Relevant(policy, ScopeForChildProcess(c), name))
    ensures (forall i :: 0 <= i < |policy| && policy[i].name == name ==> policy[i].scope == GPU_CHILD_SCOPE) ==>
              Lookup(AppendEmbedderSwitchesForChild(c, policy), name) == Lookup(c, name)
  {
    hide Tokens, MergeCommaSeparatedValues, AppendSwitchesForScope, Relevant, Replay;
    var scope := ScopeForChildProcess(c);
    assert scope & GPU_CHILD_SCOPE == 0 by {
      assert (ALL_CHILDREN_SCOPE | RENDERER_CHILD_SCOPE) & GPU_CHILD_SCOPE == 0;
    }
    OnlyRelevantSwitchesMatter(c, policy, scope, name);
    if forall i :: 0 <= i < |policy| && policy[i].name == name ==> policy[i].scope == GPU_CHILD_SCOPE {
      NoneRelevant(policy, scope, name);
      PlainStart(name, Lookup(c, name));
    }
  }

  lemma {:induction false} NoneRelevant(policy: seq<EmbedderSwitch>, scope: bv32, name: string)
    requires scope & GPU_CHILD_SCOPE == 0
    requires forall i :: 0 <= i < |policy| && policy[i].name == name ==> policy[i].scope == GPU_CHILD_SCOPE
    ensures Relevant(policy, scope, name) == []
    decreases |policy|
  {
    if policy != [] {
      NoneRelevant(policy[..|policy| - 1], scope, name);
      assert GPU_CHILD_SCOPE & scope == scope & GPU_CHILD_SCOPE;
    }
  }

  lemma PlainStart(name: string, v: Option<string>)
    ensures Replay(name, v, []) == v
  {
  }

  lemma ChildFeatures(c: Switches, policy: seq<EmbedderSwitch>, name: string, t: string)
    requires IsCommaMergedSwitch(name)
    ensures t in Tokens(ValueOf(AppendEmbedderSwitchesForChild(c, policy), name)) <==>
            Survives(Lookup(c, name), ChildValues(c, policy, name), t)
  {
    hide Replay, ChildValues, AppendEmbedderSwitchesForChild, Tokens, Survives;
    ChildSwitch(c, policy, name);
    FeaturesOfReplay(name, Lookup(c, name), ChildValues(c, policy, name), t);
  }
}
