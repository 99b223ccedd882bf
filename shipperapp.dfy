/**
 * Which controllers shipper-app runs: the comma-separated --enable and
 * --disable flags resolved against the fixed list of known controllers, the
 * table of start functions, and each start function's enabled-flag guard.
 */
module ShipperApp {
  import opened Wrappers
  import opened Strings

  const Controllers: seq<string> := ["installation", "capacity", "traffic", "janitor"]

  const Known: set<string> := set c | c in Controllers

  /** The default of --enable: every known controller. */
  const DefaultEnabled: string := Join(Controllers, ',')

  /** klog.Fatalf in buildEnabledControllers: the process stops. */
  datatype ControllerError = CannotEnable(name: string) | CannotDisable(name: string)

  /** The first non-empty token that names no known controller. */
  function FirstUnknown(tokens: seq<string>): (r: Option<string>)
  {
    if tokens == [] then None
    else if tokens[0] != "" && tokens[0] !in Known then Some(tokens[0])
    else FirstUnknown(tokens[1..])
  }

  /** Each known controller runs when the enable tokens name it and the
      disable tokens do not. */
  function Outcome(userEnabled: seq<string>, userDisabled: seq<string>): (r: map<string, bool>)
  {
    map c | c in Known :: c in userEnabled && c !in userDisabled
  }

  /** The resolution of two token lists: the first unknown name of the
      enable list is fatal, then the first of the disable list. */
  function ResolveTokens(userEnabled: seq<string>, userDisabled: seq<string>): (r: Result<map<string, bool>, ControllerError>)
  {
    match FirstUnknown(userEnabled)
    case Some(n) => Failure(CannotEnable(n))
    case None =>
      match FirstUnknown(userDisabled)
      case Some(n) => Failure(CannotDisable(n))
      case None => Success(Outcome(userEnabled, userDisabled))
  }

  /** What the two flags resolve to. */
  function Resolve(enabledControllers: string, disabledControllers: string): (r: Result<map<string, bool>, ControllerError>)
  {
    ResolveTokens(Split(enabledControllers, ','), Split(disabledControllers, ','))
  }

  /** buildEnabledControllers: every known controller starts switched off,
      the enable tokens switch on, then the disable tokens switch off; an
      unknown non-empty token in either list is fatal. */
  method BuildEnabledControllers(enabledControllers: string, disabledControllers: string)
    returns (r: Result<map<string, bool>, ControllerError>)
    ensures r == Resolve(enabledControllers, disabledControllers)
  {
    var willRun: map<string, bool> := map[];
    for i := 0 to |Controllers|
      invariant willRun == map c | c in Controllers[..i] :: false
    {
      assert Controllers[..i + 1] == Controllers[..i] + [Controllers[i]];
      willRun := willRun[Controllers[i] := false];
    }
    assert Controllers[..|Controllers|] == Controllers;
    assert willRun == Outcome([], []);

    var userEnabled := Split(enabledControllers, ',');
    var userDisabled := Split(disabledControllers, ',');
    var unknown;
    willRun, unknown := EnableAll(willRun, userEnabled);
    if unknown.Some? {
      return Failure(CannotEnable(unknown.value));
    }
    willRun, unknown := DisableAll(willRun, userEnabled, userDisabled);
    if unknown.Some? {
      return Failure(CannotDisable(unknown.value));
    }
    return Success(willRun);
  }

  /** The enable loop of buildEnabledControllers: stops at the first unknown
      name, and otherwise switches on every named controller. */
  method EnableAll(willRun0: map<string, bool>, userEnabled: seq<string>)
    returns (willRun: map<string, bool>, unknown: Option<string>)
    requires willRun0 == Outcome([], [])
    ensures unknown == FirstUnknown(userEnabled)
    ensures unknown.None? ==> willRun == Outcome(userEnabled, [])
  {
    willRun := willRun0;
    for i := 0 to |userEnabled|
      invariant willRun == Outcome(userEnabled[..i], [])
      invariant FirstUnknown(userEnabled) == FirstUnknown(userEnabled[i..])
    {
      var controller := userEnabled[i];
      assert userEnabled[i..][1..] == userEnabled[i + 1..];
      assert userEnabled[..i + 1] == userEnabled[..i] + [controller];
      OutcomeEnable(userEnabled[..i], controller);
      if controller == "" {
        continue;
      }
      if controller !in willRun {
        return willRun, Some(controller);
      }
      willRun := willRun[controller := true];
    }
    assert userEnabled[..|userEnabled|] == userEnabled;
    unknown := None;
  }

  /** The disable loop of buildEnabledControllers: stops at the first unknown
      name, and otherwise switches off every named controller. */
  method DisableAll(willRun0: map<string, bool>, userEnabled: seq<string>, userDisabled: seq<string>)
    returns (willRun: map<string, bool>, unknown: Option<string>)
    requires willRun0 == Outcome(userEnabled, [])
    ensures unknown == FirstUnknown(userDisabled)
    ensures unknown.None? ==> willRun == Outcome(userEnabled, userDisabled)
  {
    willRun := willRun0;
    for i := 0 to |userDisabled|
      invariant willRun == Outcome(userEnabled, userDisabled[..i])
      invariant FirstUnknown(userDisabled) == FirstUnknown(userDisabled[i..])
    {
      var controller := userDisabled[i];
      assert userDisabled[i..][1..] == userDisabled[i + 1..];
      assert userDisabled[..i + 1] == userDisabled[..i] + [controller];
      OutcomeDisable(userEnabled, userDisabled[..i], controller);
      if controller == "" {
        continue;
      }
      if controller !in willRun {
        return willRun, Some(controller);
      }
      willRun := willRun[controller := false];
    }
    assert userDisabled[..|userDisabled|] == userDisabled;
    unknown := None;
  }

  /** One more enable token switches on the controller it names, if any. */
  lemma OutcomeEnable(userEnabled: seq<string>, controller: string)
    ensures Outcome(userEnabled + [controller], []) ==
              if controller in Known then Outcome(userEnabled, [])[controller := true] else Outcome(userEnabled, [])
  {
    var m, m' := Outcome(userEnabled, []), Outcome(userEnabled + [controller], []);
    forall c | c in Known ensures m'[c] == (c == controller || m[c]) {
      assert c in userEnabled + [controller] <==> c in userEnabled || c == controller;
    }
    if controller in Known {
      assert m' == m[controller := true];
    } else {
      assert m' == m;
    }
  }

  /** One more disable token switches off the controller it names, if any. */
  lemma OutcomeDisable(userEnabled: seq<string>, userDisabled: seq<string>, controller: string)
    ensures Outcome(userEnabled, userDisabled + [controller]) ==
              if controller in Known then Outcome(userEnabled, userDisabled)[controller := false]
              else Outcome(userEnabled, userDisabled)
  {
    var m, m' := Outcome(userEnabled, userDisabled), Outcome(userEnabled, userDisabled + [controller]);
    forall c | c in Known ensures m'[c] == (c != controller && m[c]) {
      assert c in userDisabled + [controller] <==> c in userDisabled || c == controller;
    }
    if controller in Known {
      assert m' == m[controller := false];
    } else {
      assert m' == m;
    }
  }

  /** FirstUnknown finds nothing exactly when every non-empty token is known,
      and what it finds is an unknown non-empty token of the list. */
  lemma {:induction false} FirstUnknownSpec(tokens: seq<string>)
    ensures FirstUnknown(tokens).None? <==> forall t :: t in tokens && t != "" ==> t in Known
    ensures FirstUnknown(tokens).Some? ==>
              var n := FirstUnknown(tokens).value; n in tokens && n != "" && n !in Known
  {
    if tokens != [] {
      FirstUnknownSpec(tokens[1..]);
      assert forall t :: t in tokens <==> t == tokens[0] || t in tokens[1..];
    }
  }

  lemma {:induction false} FirstUnknownConcat(a: seq<string>, b: seq<string>)
    ensures FirstUnknown(a + b) == if FirstUnknown(a).Some? then FirstUnknown(a) else FirstUnknown(b)
  {
    if a != [] {
      assert (a + b)[1..] == a[1..] + b;
      FirstUnknownConcat(a[1..], b);
    } else {
      assert a + b == b;
    }
  }

  /** On success every known controller, and nothing else, has an entry. */
  lemma ResolvedKeys(enabledControllers: string, disabledControllers: string)
    requires Resolve(enabledControllers, disabledControllers).Success?
    ensures Resolve(enabledControllers, disabledControllers).value.Keys == set c | c in Controllers
  {
  }

  /** A controller runs exactly when the enable list names it and the disable
      list does not: disabling wins. */
  lemma DisableWins(enabledControllers: string, disabledControllers: string, c: string)
    requires Resolve(enabledControllers, disabledControllers).Success?
    requires c in Controllers
    ensures Resolve(enabledControllers, disabledControllers).value[c] <==>
              c in Split(enabledControllers, ',') && c !in Split(disabledControllers, ',')
  {
  }

  /** Resolution fails exactly when a list holds a non-empty unknown name,
      and the failure names one. */
  lemma UnknownIsFatal(enabledControllers: string, disabledControllers: string)
    ensures var all := Split(enabledControllers, ',') + Split(disabledControllers, ',');
            Resolve(enabledControllers, disabledControllers).Failure? <==>
              exists t :: t in all && t != "" && t !in Controllers
    ensures match Resolve(enabledControllers, disabledControllers)
            case Failure(CannotEnable(n)) => n in Split(enabledControllers, ',') && n != "" && n !in Controllers
            case Failure(CannotDisable(n)) => n in Split(disabledControllers, ',') && n != "" && n !in Controllers
            case Success(_) => true
  {
    FirstUnknownSpec(Split(enabledControllers, ','));
    FirstUnknownSpec(Split(disabledControllers, ','));
  }

  /** Two token lists that find the same first unknown name and name the
      same known controllers have the same effect. */
  ghost predicate SameEffect(a: seq<string>, b: seq<string>)
  {
    FirstUnknown(a) == FirstUnknown(b) && forall c :: c in Known ==> (c in a <==> c in b)
  }

  lemma ResolveCongruence(e1: string, d1: string, e2: string, d2: string)
    requires SameEffect(Split(e1, ','), Split(e2, ','))
    requires SameEffect(Split(d1, ','), Split(d2, ','))
    ensures Resolve(e1, d1) == Resolve(e2, d2)
  {
    var en1, dis1, en2, dis2 := Split(e1, ','), Split(d1, ','), Split(e2, ','), Split(d2, ',');
    var m1, m2 := Outcome(en1, dis1), Outcome(en2, dis2);
    assert m1.Keys == m2.Keys;
    assert forall c :: c in m1 ==> m1[c] == m2[c];
    assert m1 == m2;
  }

  /** An empty token between two separators changes nothing, in either list. */
  lemma EmptyTokensIgnored(e1: string, e2: string, d1: string, d2: string)
    ensures Resolve(e1 + ",," + e2, d1 + ",," + d2) == Resolve(e1 + "," + e2, d1 + "," + d2)
  {
    EmptyTokenIgnored(e1, e2);
    EmptyTokenIgnored(d1, d2);
    ResolveCongruence(e1 + ",," + e2, d1 + ",," + d2, e1 + "," + e2, d1 + "," + d2);
  }

  lemma EmptyTokenIgnored(a: string, b: string)
    ensures SameEffect(Split(a + ",," + b, ','), Split(a + "," + b, ','))
  {
    assert a + ",," + b == a + [','] + ("," + b);
    assert "," + b == "" + [','] + b;
    assert a + "," + b == a + [','] + b;
    SplitConcat(a, "," + b, ',');
    SplitConcat("", b, ',');
    SplitConcat(a, b, ',');
    var sa, sb := Split(a, ','), Split(b, ',');
    assert Split(a + ",," + b, ',') == sa + ([""] + sb);
    FirstUnknownConcat(sa, [""] + sb);
    FirstUnknownConcat(sa, sb);
    assert ([""] + sb)[1..] == sb;
  }

  /** Empty flags enable nothing. */
  lemma EmptyFlagsEnableNothing()
    ensures Resolve("", "") == Success(map c | c in Known :: false)
  {
    assert Split("", ',') == [""] && FirstUnknown([""]) == None by {
      assert [""][1..] == [];
    }
    var m := Outcome([""], [""]);
    forall c | c in Known ensures !m[c] {
      KnownNonEmpty(c);
    }
    assert m == map c | c in Known :: false;
  }

  /** Naming the same list twice over is the same as naming it once. */
  lemma RepeatedNamesIgnored(e: string, d: string)
    ensures Resolve(e + "," + e, d + "," + d) == Resolve(e, d)
  {
    assert e + "," + e == e + [','] + e;
    assert d + "," + d == d + [','] + d;
    SplitConcat(e, e, ',');
    SplitConcat(d, d, ',');
    FirstUnknownConcat(Split(e, ','), Split(e, ','));
    FirstUnknownConcat(Split(d, ','), Split(d, ','));
    ResolveCongruence(e + "," + e, d + "," + d, e, d);
  }

  /** The default flags run every controller. */
  lemma DefaultRunsEverything()
    ensures Resolve(DefaultEnabled, "") == Success(map c | c in Known :: true)
  {
    DefaultTokens();
    assert forall t :: t in Controllers ==> t in Known;
    NamingAllRunsEverything(DefaultEnabled);
  }

  /** An enable flag that names every known controller, in any order and
      with empty tokens anywhere, and no unknown name, with nothing disabled,
      runs every controller. */
  lemma NamingAllRunsEverything(enabledControllers: string)
    requires forall t :: t in Split(enabledControllers, ',') ==> t == "" || t in Known
    requires forall c :: c in Known ==> c in Split(enabledControllers, ',')
    ensures Resolve(enabledControllers, "") == Success(map c | c in Known :: true)
  {
    var tokens := Split(enabledControllers, ',');
    assert FirstUnknown(tokens) == None by {
      FirstUnknownSpec(tokens);
    }
    assert Split("", ',') == [""] && FirstUnknown([""]) == None by {
      assert [""][1..] == [];
    }
    var m := Outcome(tokens, [""]);
    forall c | c in Known ensures m[c] {
      KnownNonEmpty(c);
    }
    assert m == map c | c in Known :: true;
  }

  /** The default flag splits back into the known controllers. */
  lemma DefaultTokens()
    ensures Split(DefaultEnabled, ',') == Controllers
  {
    forall i | 0 <= i < |Controllers| ensures ',' !in Controllers[i] {
    }
    SplitJoin(Controllers, ',');
  }

  /** Every known controller has a non-empty name. */
  lemma KnownNonEmpty(c: string)
    requires c in Known
    ensures c != ""
  {
  }

  /** The start functions of the initializer table. */
  datatype Initializer =
    | StartInstallationController
    | StartCapacityController
    | StartTrafficController
    | StartJanitorController

  /** The entry of the enabled map a start function consults. */
  function FlagOf(init: Initializer): (r: string)
  {
    match init
    case StartInstallationController => "installation"
    case StartCapacityController => "capacity"
    case StartTrafficController => "traffic"
    case StartJanitorController => "janitor"
  }

  /** buildInitializers: one start function per known controller, filed under
      the very name it consults. */
  method BuildInitializers() returns (controllers: map<string, Initializer>)
    ensures controllers.Keys == set c | c in Controllers
    ensures forall name :: name in controllers ==> FlagOf(controllers[name]) == name
  {
    controllers := map[];
    controllers := controllers["installation" := StartInstallationController];
    controllers := controllers["capacity" := StartCapacityController];
    controllers := controllers["traffic" := StartTrafficController];
    controllers := controllers["janitor" := StartJanitorController];
  }

  /** What a start function returns: whether it started its controller, and
      an error, which none of them ever produces. */
  datatype StartResult = StartResult(started: bool, err: Option<string>)

  /** The enabled-flag guard of every start*Controller function; a missing
      entry reads as false, as a Go map lookup does. */
  function Start(init: Initializer, enabledControllers: map<string, bool>): (r: StartResult)
    ensures r.err.None?
    ensures !r.started <==> FlagOf(init) !in enabledControllers || !enabledControllers[FlagOf(init)]
  {
    var enabled := if FlagOf(init) in enabledControllers then enabledControllers[FlagOf(init)] else false;
    if !enabled then StartResult(false, None)
    else StartResult(true, None)
  }

  /** Together: with the resolved map and the initializer table, the
      controller under each name starts exactly when the flags ask for it. */
  lemma StartedIffRequested(enabledControllers: string, disabledControllers: string,
                            initializers: map<string, Initializer>, name: string)
    requires Resolve(enabledControllers, disabledControllers).Success?
    requires initializers.Keys == set c | c in Controllers
    requires forall n :: n in initializers ==> FlagOf(initializers[n]) == n
    requires name in initializers
    ensures Start(initializers[name], Resolve(enabledControllers, disabledControllers).value).started <==>
              name in Split(enabledControllers, ',') && name !in Split(disabledControllers, ',')
  {
    DisableWins(enabledControllers, disabledControllers, name);
  }
}
