/**
 Layered configuration: `load`, `merge`, `merge_redaction` and `merge_proxy` of
 cli/src/config.rs.  The entries of `apps` and `targets` are opaque.
 */
module ConfigLayers {
  import opened Basics
  import opened StringSets

  datatype RedactionConfig = RedactionConfig(enabled: Option<bool>, jsonKeys: seq<string>, patterns: seq<string>)

  datatype ProxyConfig = ProxyConfig(
    caCert: Option<string>,
    caKey: Option<string>,
    caTrusted: Option<bool>,
    port: Option<nat>,
    hosts: seq<string>,
    trustStore: Option<string>,
    verifyUpstream: Option<bool>,
    anticache: Option<bool>,
    anticomp: Option<bool>,
    redact: Option<bool>)

  datatype Config = Config(
    device: Option<string>,
    defaultTarget: Option<string>,
    app: Option<string>,
    project: Option<string>,
    studioUrl: Option<string>,
    androidStudio: Option<string>,
    studioPlugin: Option<string>,
    debugger: Option<string>,
    debugMode: Option<string>,
    runConfiguration: Option<string>,
    usageLog: Option<bool>,
    redaction: Option<RedactionConfig>,
    proxy: Option<ProxyConfig>,
    apps: map<string, string>,
    targets: map<string, string>)

  const EMPTY := Config(None, None, None, None, None, None, None, None, None, None, None, None, None, map[], map[])

  function MergeRedaction(base: Option<RedactionConfig>, over: Option<RedactionConfig>): Option<RedactionConfig> {
    if over.None? then base
    else if base.None? then over
    else
      Some(RedactionConfig(
             Or(over.value.enabled, base.value.enabled),
             SortDedup(base.value.jsonKeys + over.value.jsonKeys),
             SortDedup(base.value.patterns + over.value.patterns)))
  }

  function MergeProxy(base: Option<ProxyConfig>, over: Option<ProxyConfig>): Option<ProxyConfig> {
    if over.None? then base
    else if base.None? then over
    else
      var (b, o) := (base.value, over.value);
      Some(ProxyConfig(
             Or(o.caCert, b.caCert),
             Or(o.caKey, b.caKey),
             Or(o.caTrusted, b.caTrusted),
             Or(o.port, b.port),
             if o.hosts != [] then o.hosts else b.hosts,
             Or(o.trustStore, b.trustStore),
             Or(o.verifyUpstream, b.verifyUpstream),
             Or(o.anticache, b.anticache),
             Or(o.anticomp, b.anticomp),
             Or(o.redact, b.redact)))
  }

  /** `over` is the more specific of the two. */
  function Merged(base: Config, over: Config): Config {
    Config(
      Or(over.device, base.device),
      Or(over.defaultTarget, base.defaultTarget),
      Or(over.app, base.app),
      Or(over.project, base.project),
      Or(over.studioUrl, base.studioUrl),
      Or(over.androidStudio, base.androidStudio),
      Or(over.studioPlugin, base.studioPlugin),
      Or(over.debugger, base.debugger),
      Or(over.debugMode, base.debugMode),
      Or(over.runConfiguration, base.runConfiguration),
      Or(over.usageLog, base.usageLog),
      MergeRedaction(base.redaction, over.redaction),
      MergeProxy(base.proxy, over.proxy),
      base.apps + over.apps,
      base.targets + over.targets)
  }

  /** All files on top of each other, the most specific last. */
  function Layered(files: seq<Config>): Config {
    if files == [] then EMPTY else Merged(Layered(files[..|files| - 1]), files[|files| - 1])
  }

  // ---- the loaded configuration ---------------------------------------------------

  /** A configuration file: where it is, and what it holds if it parses. */
  datatype File = File(path: string, parsed: Result<Config, string>)

  class Loaded {
    var device: Option<string>
    var defaultTarget: Option<string>
    var app: Option<string>
    var project: Option<string>
    var studioUrl: Option<string>
    var androidStudio: Option<string>
    var studioPlugin: Option<string>
    var debugger: Option<string>
    var debugMode: Option<string>
    var runConfiguration: Option<string>
    var usageLog: Option<bool>
    var redaction: Option<RedactionConfig>
    var proxy: Option<ProxyConfig>
    var apps: map<string, string>
    var targets: map<string, string>
    var sources: seq<string>

    function Contents(): Config
      reads this
    {
      Config(device, defaultTarget, app, project, studioUrl, androidStudio, studioPlugin, debugger, debugMode,
             runConfiguration, usageLog, redaction, proxy, apps, targets)
    }

    constructor ()
      ensures Contents() == EMPTY && sources == []
    {
      device, defaultTarget, app, project, studioUrl := None, None, None, None, None;
      androidStudio, studioPlugin, debugger, debugMode, runConfiguration := None, None, None, None, None;
      usageLog, redaction, proxy := None, None, None;
      apps, targets, sources := map[], map[], [];
    }

    method Merge(other: Config)
      modifies this
      ensures Contents() == Merged(old(Contents()), other)
      ensures sources == old(sources)
    {
      hide Or, MergeRedaction, MergeProxy;
      MergeTexts(other);
      MergeRest(other);
    }

    method MergeTexts(other: Config)
      modifies this`device, this`defaultTarget, this`app, this`project, this`studioUrl
      modifies this`androidStudio, this`studioPlugin, this`debugger, this`debugMode, this`runConfiguration
      ensures device == Or(other.device, old(device)) && defaultTarget == Or(other.defaultTarget, old(defaultTarget))
      ensures app == Or(other.app, old(app)) && project == Or(other.project, old(project))
      ensures studioUrl == Or(other.studioUrl, old(studioUrl))
      ensures androidStudio == Or(other.androidStudio, old(androidStudio))
      ensures studioPlugin == Or(other.studioPlugin, old(studioPlugin))
      ensures debugger == Or(other.debugger, old(debugger)) && debugMode == Or(other.debugMode, old(debugMode))
      ensures runConfiguration == Or(other.runConfiguration, old(runConfiguration))
    {
      hide Or;
      device := Or(other.device, device);
      defaultTarget := Or(other.defaultTarget, defaultTarget);
      app := Or(other.app, app);
      project := Or(other.project, project);
      studioUrl := Or(other.studioUrl, studioUrl);
      androidStudio := Or(other.androidStudio, androidStudio);
      studioPlugin := Or(other.studioPlugin, studioPlugin);
      debugger := Or(other.debugger, debugger);
      debugMode := Or(other.debugMode, debugMode);
      runConfiguration := Or(other.runConfiguration, runConfiguration);
    }

    method MergeRest(other: Config)
      modifies this`usageLog, this`redaction, this`proxy, this`apps, this`targets
      ensures usageLog == Or(other.usageLog, old(usageLog))
      ensures redaction == MergeRedaction(old(redaction), other.redaction)
      ensures proxy == MergeProxy(old(proxy), other.proxy)
      ensures apps == old(apps) + other.apps && targets == old(targets) + other.targets
    {
      hide Or, MergeRedaction, MergeProxy;
      usageLog := Or(other.usageLog, usageLog);
      redaction := MergeRedaction(redaction, other.redaction);
      proxy := MergeProxy(proxy, other.proxy);
      apps := apps + other.apps;
      targets := targets + other.targets;
    }
  }

  function Paths(files: seq<File>): seq<string> {
    seq(|files|, i requires 0 <= i < |files| => files[i].path)
  }

  function Parsed(files: seq<File>): seq<Config>
    requires forall f :: f in files ==> f.parsed.Ok?
  {
    seq(|files|, i requires 0 <= i < |files| => files[i].parsed.value)
  }

  /** Loads the files in order, or reports the first that does not parse. */
  method Load(files: seq<File>) returns (r: Result<Loaded, string>)
    ensures r.Ok? <==> forall f :: f in files ==> f.parsed.Ok?
    ensures r.Ok? ==> r.value.Contents() == Layered(Parsed(files)) && r.value.sources == Paths(files)
    ensures r.Err? ==>
      exists i :: 0 <= i < |files| && files[i].parsed == Err(r.error)
        && forall j :: 0 <= j < i ==> files[j].parsed.Ok?
  {
    hide Merged;
    var loaded := new Loaded();
    for i := 0 to |files|
      invariant fresh(loaded)
      invariant forall j :: 0 <= j < i ==> files[j].parsed.Ok?
      invariant loaded.Contents() == Layered(Parsed(files[..i]))
      invariant loaded.sources == Paths(files[..i])
    {
      if files[i].parsed.Err? {
        assert files[i] in files;
        return Err(files[i].parsed.error);
      }
      assert Parsed(files[..i + 1])[..i] == Parsed(files[..i]);
      loaded.Merge(files[i].parsed.value);
      loaded.sources := loaded.sources + [files[i].path];
    }
    assert files[..|files|] == files;
    r := Ok(loaded);
  }

  // ---- merging is a monoid -----------------------------------------------------------

  lemma ListsAreAssociative(a: seq<string>, b: seq<string>, c: seq<string>)
    ensures SortDedup(SortDedup(a + b) + c) == SortDedup(a + SortDedup(b + c))
  {
    hide SortDedup;
    SortDedupIsCanonical(SortDedup(a + b) + c, a + SortDedup(b + c));
  }

  lemma RedactionIsAssociative(a: Option<RedactionConfig>, b: Option<RedactionConfig>, c: Option<RedactionConfig>)
    ensures MergeRedaction(MergeRedaction(a, b), c) == MergeRedaction(a, MergeRedaction(b, c))
  {
    hide SortDedup;
    if a.Some? && b.Some? && c.Some? {
      ListsAreAssociative(a.value.jsonKeys, b.value.jsonKeys, c.value.jsonKeys);
      ListsAreAssociative(a.value.patterns, b.value.patterns, c.value.patterns);
    }
  }

  lemma ProxyIsAssociative(a: Option<ProxyConfig>, b: Option<ProxyConfig>, c: Option<ProxyConfig>)
    ensures MergeProxy(MergeProxy(a, b), c) == MergeProxy(a, MergeProxy(b, c))
  {
  }

  lemma MergeIsAssociative(a: Config, b: Config, c: Config)
    ensures Merged(Merged(a, b), c) == Merged(a, Merged(b, c))
  {
    hide MergeRedaction, MergeProxy;
    RedactionIsAssociative(a.redaction, b.redaction, c.redaction);
    ProxyIsAssociative(a.proxy, b.proxy, c.proxy);
    assert (a.apps + b.apps) + c.apps == a.apps + (b.apps + c.apps);
    assert (a.targets + b.targets) + c.targets == a.targets + (b.targets + c.targets);
  }

  lemma EmptyIsNeutral(a: Config)
    ensures Merged(EMPTY, a) == a && Merged(a, EMPTY) == a
  {
    assert map[] + a.apps == a.apps && map[] + a.targets == a.targets;
  }

  /** Files can be layered in any grouping. */
  lemma {:induction false} LayersCompose(first: seq<Config>, second: seq<Config>)
    ensures Layered(first + second) == Merged(Layered(first), Layered(second))
    decreases |second|
  {
    hide Merged;
    if second == [] {
      assert first + second == first;
      EmptyIsNeutral(Layered(first));
    } else {
      var rest, last := second[..|second| - 1], second[|second| - 1];
      LayersCompose(first, rest);
      assert (first + second)[..|first + second| - 1] == first + rest;
      MergeIsAssociative(Layered(first), Layered(rest), last);
    }
  }

  // ---- the last file that sets a value decides it ---------------------------------------

  datatype TextSetting =
    | Device | DefaultTarget | App | Project | StudioUrl | AndroidStudio | StudioPlugin
    | Debugger | DebugMode | RunConfiguration | CaCert | CaKey | TrustStore
    | AppEntry(name: string) | TargetEntry(name: string)

  function TextOf(c: Config, s: TextSetting): Option<string> {
    match s
    case Device => c.device
    case DefaultTarget => c.defaultTarget
    case App => c.app
    case Project => c.project
    case StudioUrl => c.studioUrl
    case AndroidStudio => c.androidStudio
    case StudioPlugin => c.studioPlugin
    case Debugger => c.debugger
    case DebugMode => c.debugMode
    case RunConfiguration => c.runConfiguration
    case CaCert => if c.proxy.Some? then c.proxy.value.caCert else None
    case CaKey => if c.proxy.Some? then c.proxy.value.caKey else None
    case TrustStore => if c.proxy.Some? then c.proxy.value.trustStore else None
    case AppEntry(name) => if name in c.apps then Some(c.apps[name]) else None
    case TargetEntry(name) => if name in c.targets then Some(c.targets[name]) else None
  }

  datatype FlagSetting =
    UsageLog | RedactionEnabled | CaTrusted | VerifyUpstream | Anticache | Anticomp | ProxyRedact

  function FlagOf(c: Config, s: FlagSetting): Option<bool> {
    match s
    case UsageLog => c.usageLog
    case RedactionEnabled => if c.redaction.Some? then c.redaction.value.enabled else None
    case CaTrusted => if c.proxy.Some? then c.proxy.value.caTrusted else None
    case VerifyUpstream => if c.proxy.Some? then c.proxy.value.verifyUpstream else None
    case Anticache => if c.proxy.Some? then c.proxy.value.anticache else None
    case Anticomp => if c.proxy.Some? then c.proxy.value.anticomp else None
    case ProxyRedact => if c.proxy.Some? then c.proxy.value.redact else None
  }

  function PortOf(c: Config): Option<nat> {
    if c.proxy.Some? then c.proxy.value.port else None
  }

  /** An empty host list sets nothing. */
  function HostsOf(c: Config): Option<seq<string>> {
    if c.proxy.Some? && c.proxy.value.hosts != [] then Some(c.proxy.value.hosts) else None
  }

  /** The last value set, if any. */
  function LastSet<T>(files: seq<Config>, get: Config -> Option<T>): Option<T> {
    if files == [] then None else Or(get(files[|files| - 1]), LastSet(files[..|files| - 1], get))
  }

  ghost predicate LaterWins<T(!new)>(get: Config -> Option<T>) {
    get(EMPTY).None? && forall a: Config, b: Config :: get(Merged(a, b)) == Or(get(b), get(a))
  }

  lemma {:induction false} LastSetterDecides<T(!new)>(files: seq<Config>, get: Config -> Option<T>)
    requires LaterWins(get)
    ensures get(Layered(files)) == LastSet(files, get)
    decreases |files|
  {
    hide Merged;
    if files != [] {
      LastSetterDecides(files[..|files| - 1], get);
    }
  }

  /** Every scalar, and every named app and target, comes from the last file that sets it. */
  lemma EverySettingIsTheLastSet(files: seq<Config>, text: TextSetting, flag: FlagSetting)
    ensures TextOf(Layered(files), text) == LastSet(files, c => TextOf(c, text))
    ensures FlagOf(Layered(files), flag) == LastSet(files, c => FlagOf(c, flag))
    ensures PortOf(Layered(files)) == LastSet(files, PortOf)
    ensures HostsOf(Layered(files)) == LastSet(files, HostsOf)
  {
    hide Layered;
    TextsLayer(text);
    FlagsLayer(flag);
    PortsAndHostsLayer();
    LastSetterDecides(files, c => TextOf(c, text));
    LastSetterDecides(files, c => FlagOf(c, flag));
    LastSetterDecides(files, PortOf);
    LastSetterDecides(files, HostsOf);
  }

  lemma TextLayers(a: Config, b: Config, s: TextSetting)
    ensures TextOf(Merged(a, b), s) == Or(TextOf(b, s), TextOf(a, s))
  {
    hide SortDedup;
  }

  lemma TextsLayer(s: TextSetting)
    ensures LaterWins(c => TextOf(c, s))
  {
    hide TextOf, Merged;
    NoTextInEmpty(s);
    forall a: Config, b: Config ensures TextOf(Merged(a, b), s) == Or(TextOf(b, s), TextOf(a, s)) {
      TextLayers(a, b, s);
    }
  }

  lemma NoTextInEmpty(s: TextSetting)
    ensures TextOf(EMPTY, s).None?
  {
  }

  lemma FlagLayers(a: Config, b: Config, s: FlagSetting)
    ensures FlagOf(Merged(a, b), s) == Or(FlagOf(b, s), FlagOf(a, s))
  {
    hide SortDedup;
  }

  lemma NothingInEmpty(s: FlagSetting)
    ensures FlagOf(EMPTY, s).None? && PortOf(EMPTY).None? && HostsOf(EMPTY).None?
  {
  }

  lemma FlagsLayer(s: FlagSetting)
    ensures LaterWins(c => FlagOf(c, s))
  {
    hide FlagOf, Merged;
    NothingInEmpty(s);
    forall a: Config, b: Config ensures FlagOf(Merged(a, b), s) == Or(FlagOf(b, s), FlagOf(a, s)) {
      FlagLayers(a, b, s);
    }
  }

  lemma ProxyLayers(a: Config, b: Config)
    ensures PortOf(Merged(a, b)) == Or(PortOf(b), PortOf(a))
    ensures HostsOf(Merged(a, b)) == Or(HostsOf(b), HostsOf(a))
  {
    hide MergeRedaction;
  }

  lemma PortsAndHostsLayer()
    ensures LaterWins(PortOf) && LaterWins(HostsOf)
  {
    hide PortOf, HostsOf, Merged;
    NothingInEmpty(UsageLog);
    forall a: Config, b: Config
      ensures PortOf(Merged(a, b)) == Or(PortOf(b), PortOf(a)) && HostsOf(Merged(a, b)) == Or(HostsOf(b), HostsOf(a))
    {
      ProxyLayers(a, b);
    }
  }

  // ---- redaction lists ----------------------------------------------------------------------

  datatype ListSetting = JsonKeys | Patterns

  function ListOf(c: Config, which: ListSetting): seq<string> {
    if c.redaction.None? then []
    else if which.JsonKeys? then c.redaction.value.jsonKeys
    else c.redaction.value.patterns
  }

  /** A redaction key or pattern is in force exactly when some file names it. */
  lemma {:induction false} ListsAccumulate(files: seq<Config>, which: ListSetting, entry: string)
    ensures entry in ListOf(Layered(files), which) <==> exists f :: f in files && entry in ListOf(f, which)
    decreases |files|
  {
    hide SortDedup, Merged, ListOf;
    if files == [] {
      NothingListedInEmpty(which, entry);
    } else {
      var rest, last := files[..|files| - 1], files[|files| - 1];
      ListsAccumulate(rest, which, entry);
      ListsJoin(Layered(rest), last, which, entry);
      assert files == rest + [last] && last in files;
      assert forall f :: f in files <==> f in rest || f == last;
    }
  }

  lemma NothingListedInEmpty(which: ListSetting, entry: string)
    ensures entry !in ListOf(EMPTY, which)
  {
  }

  lemma ListsJoin(a: Config, b: Config, which: ListSetting, entry: string)
    ensures entry in ListOf(Merged(a, b), which) <==> entry in ListOf(a, which) || entry in ListOf(b, which)
  {
    hide SortDedup, MergeProxy;
  }
}
