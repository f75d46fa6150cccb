/**
 * Distribution targets and the registry of distribution methods (Targets.py and
 * FileDistribution/target_distribution_methods.py).  A target is a dictionary of
 * strings; its 'distribution_method' names a registered method, and that method
 * turns a file and the target into the actions that carry the file there.  The
 * actions a method builds are whatever the method returns: the model treats a
 * method as a function from the request to its list of actions.
 */
module Targets {
  import opened Common

  /** One target's details, e.g. 'name' and 'distribution_method'. */
  type Target = map<string, string>

  /** What a distribution method is called with. */
  datatype Request = Request(source: string, filename: string, sha1sum: Option<string>,
                             size: Option<nat>, target: Target)

  /** An action of a distribution: the log actions this module adds around a method's
      actions, or an action a method built (`step` says which). */
  datatype Action =
    | LogDistribution(kind: string, filename: string, target: Target)
    | MethodAction(step: string, request: Request)

  type DistributionMethod = Request -> seq<Action>

  /** The exceptions raised here: a target id that is not configured, and a key a
      dictionary does not hold. */
  datatype TargetsError = UnknownTarget(id: string) | KeyError(key: string)

  function ErrorMessage(e: TargetsError): string {
    match e
    case UnknownTarget(id) => "id " + id + " does not exist in targets"
    case KeyError(key) => "'" + key + "'"
  }

  const DistributionMethodKey: string := "distribution_method"
  const NameKey: string := "name"

  /** The text `LogDistributionAction.run` logs. */
  function LogMessage(kind: string, filename: string, target: Target): (r: Result<string, TargetsError>)
    ensures r.Err? <==> NameKey !in target
    ensures r.Err? ==> r.error == KeyError(NameKey)
    ensures r.Ok? ==>
      var name := target[NameKey];
      var middle := " distribution of " + filename + " to ";
      && |r.value| == |kind| + |middle| + |name|
      && r.value[..|kind|] == kind
      && r.value[|kind|..|kind| + |middle|] == middle
      && r.value[|kind| + |middle|..] == name
  {
    if NameKey !in target then Err(KeyError(NameKey))
    else Ok(kind + " distribution of " + filename + " to " + target[NameKey])
  }

  /** The module-level dictionary of distribution methods, by name. */
  class Registry {
    var methods: map<string, DistributionMethod>

    /** The dictionary starts empty. */
    constructor ()
      ensures methods == map[]
    {
      methods := map[];
    }

    /** `register`: the name is bound to the method, replacing an earlier binding;
        every other binding stays. */
    method Register(name: string, m: DistributionMethod)
      modifies this
      ensures methods == old(methods)[name := m]
      ensures forall request: Request :: DistributionMethodOf(request.target) == Some(name) ==>
        CreateActions(request) == Ok(m(request))
      ensures forall request: Request :: DistributionMethodOf(request.target) != Some(name) ==>
        CreateActions(request) == old(CreateActions(request))
    {
      methods := methods[name := m];
    }

    /** `create_actions`: the actions of the method the target names, as that method
        returns them; a target without a method name, or naming an unregistered
        method, fails with a key lookup error. */
    function CreateActions(request: Request): (r: Result<seq<Action>, TargetsError>)
      reads this
      ensures r.Ok? <==> DistributionMethodOf(request.target).Some? && DistributionMethodOf(request.target).value in methods
      ensures DistributionMethodOf(request.target).None? ==> r == Err(KeyError(DistributionMethodKey))
      ensures DistributionMethodOf(request.target).Some? && DistributionMethodOf(request.target).value !in methods ==>
        r == Err(KeyError(DistributionMethodOf(request.target).value))
      ensures r.Ok? ==> r.value == methods[DistributionMethodOf(request.target).value](request)
    {
      if DistributionMethodKey !in request.target then Err(KeyError(DistributionMethodKey))
      else
        var name := request.target[DistributionMethodKey];
        if name !in methods then Err(KeyError(name)) else Ok(methods[name](request))
    }
  }

  function DistributionMethodOf(target: Target): Option<string> {
    if DistributionMethodKey in target then Some(target[DistributionMethodKey]) else None
  }

  /** The configured targets, by id (`Targets`). */
  datatype Targets = Targets(targets: map<string, Target>) {
    /** `get_targets`: the mapping the targets were built from. */
    function GetTargets(): map<string, Target> {
      targets
    }
  }

  /** `create_distribution_actions`: an unknown target id raises before anything is
      built; otherwise the method's actions, between a 'Started' and a 'Completed'
      log action for the file and the target. */
  function CreateDistributionActions(t: Targets, registry: Registry, source: string, filename: string,
                                     sha1sum: Option<string>, size: Option<nat>, id: string)
    : (r: Result<seq<Action>, TargetsError>)
    reads registry
    ensures id !in t.targets ==> r == Err(UnknownTarget(id))
    ensures id in t.targets ==>
      var built := registry.CreateActions(Request(source, filename, sha1sum, size, t.targets[id]));
      && (r.Ok? <==> built.Ok?)
      && (built.Err? ==> r.error == built.error)
      && (r.Ok? ==>
        && |r.value| == |built.value| + 2
        && r.value[0] == LogDistribution("Started", filename, t.targets[id])
        && r.value[|r.value| - 1] == LogDistribution("Completed", filename, t.targets[id])
        && MethodActions(r.value) == built.value)
  {
    if id !in t.GetTargets() then Err(UnknownTarget(id))
    else
      var target := t.GetTargets()[id];
      match registry.CreateActions(Request(source, filename, sha1sum, size, target))
      case Err(e) => Err(e)
      case Ok(actions) =>
        Ok([LogDistribution("Started", filename, target)] + actions + [LogDistribution("Completed", filename, target)])
  }

  /** The actions between the first and the last. */
  function MethodActions(actions: seq<Action>): seq<Action>
    requires |actions| >= 2
  {
    actions[1..|actions| - 1]
  }
}
