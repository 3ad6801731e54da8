/**
  The crawler's configuration (main.py:219-242): a dictionary loaded from a
  JSON file, completed from the command-line arguments wherever a value is
  missing or false, after which the target directory loses one trailing '/'
  and is added to the directories searched for duplicates.
*/
module CrawlConfig {
  import opened Wrappers

  /** The JSON values the configuration holds. */
  datatype Value = Null | Flag(b: bool) | Text(s: string) | List(items: seq<string>)

  /** Python's truth value of a configuration value. */
  predicate Truthy(v: Value) {
    match v
    case Null => false
    case Flag(b) => b
    case Text(s) => s != []
    case List(xs) => xs != []
  }

  /** The parsed command line (main.py:149-208); `None` where argparse
      leaves an option without default unset. */
  datatype Args = Args(
    url: Option<seq<string>>,
    download: seq<string>,
    follow: seq<string>,
    ignoreDuplicatesIn: seq<string>,
    noFollow: seq<string>,
    target: string,
    allowNetlocChange: bool,
    log: string,
    config: Option<string>)

  /** The defaults argparse fills in when no option is given. */
  const DefaultArgs := Args(None, [".*\\.jpg"], [".*\\.html", ".*/"], ["fetched/"], [".*\\.jpg"],
                            "fetched/", false, "INFO", None)

  function OptionalList(o: Option<seq<string>>): Value {
    match o
    case None => Null
    case Some(xs) => List(xs)
  }

  function OptionalText(o: Option<string>): Value {
    match o
    case None => Null
    case Some(s) => Text(s)
  }

  /** `vars(args).items()`, in the order the options are declared. */
  function ArgItems(a: Args): seq<(string, Value)> {
    [("url", OptionalList(a.url)), ("download", List(a.download)), ("follow", List(a.follow)),
     ("ignore_duplicates_in", List(a.ignoreDuplicatesIn)), ("no_follow", List(a.noFollow)),
     ("target", Text(a.target)), ("allow_netloc_change", Flag(a.allowNetlocChange)),
     ("log", Text(a.log)), ("config", OptionalText(a.config))]
  }

  predicate DistinctKeys(items: seq<(string, Value)>) {
    forall i, j :: 0 <= i < j < |items| ==> items[i].0 != items[j].0
  }

  function KeysOf(items: seq<(string, Value)>): set<string> {
    set i | 0 <= i < |items| :: items[i].0
  }

  /** The value the configuration ends up with for `key`: its own when
      present and true, the command line's otherwise. */
  function Preferred(config: map<string, Value>, key: string, fallback: Value): Value {
    if key in config && Truthy(config[key]) then config[key] else fallback
  }

  /** The keys whose values the crawler iterates over or appends to. */
  const ListKeys: set<string> := {"url", "download", "follow", "ignore_duplicates_in", "no_follow"}

  /** A true value the crawler would use has the type the crawler uses it
      as: lists of strings for the pattern and directory lists, a string
      for the target. False values are replaced from the command line. */
  predicate Shaped(config: map<string, Value>) {
    forall k :: k in config && Truthy(config[k]) ==>
      (k in ListKeys ==> config[k].List?) && (k == "target" ==> config[k].Text?)
  }

  /** Everything the crawl reads from the configuration is there, with
      the type it is used as. */
  predicate Configured(c: map<string, Value>) {
    && (forall k :: k in ListKeys ==> k in c && c[k].List?)
    && "target" in c && c["target"].Text?
    && "allow_netloc_change" in c
  }

  /** The target directory is one of the directories searched for
      duplicates (main.py:241-242). */
  predicate TargetIgnored(c: map<string, Value>)
    requires Configured(c)
  {
    c["target"].s in c["ignore_duplicates_in"].items
  }

  /** The loop at main.py:233-235: every command-line value is copied into
      the configuration unless the configuration already holds a true value
      under that name. */
  method FillFromArgs(config: map<string, Value>, items: seq<(string, Value)>) returns (c: map<string, Value>)
    requires DistinctKeys(items)
    ensures c.Keys == config.Keys + KeysOf(items)
    ensures forall i :: 0 <= i < |items| ==> c[items[i].0] == Preferred(config, items[i].0, items[i].1)
    ensures forall k :: k in config && k !in KeysOf(items) ==> c[k] == config[k]
  {
    c := config;
    for i := 0 to |items|
      invariant c.Keys == config.Keys + KeysOf(items[..i])
      invariant forall j :: 0 <= j < i ==> c[items[j].0] == Preferred(config, items[j].0, items[j].1)
      invariant forall k :: k in config && k !in KeysOf(items[..i]) ==> c[k] == config[k]
    {
      var (arg, val) := items[i];
      assert arg !in KeysOf(items[..i]);
      if !(arg in c && Truthy(c[arg])) {
        c := c[arg := val];
      }
      assert KeysOf(items[..i + 1]) == KeysOf(items[..i]) + {arg};
    }
    assert items[..|items|] == items;
  }

  /** `t[:-1] if t[-1:] == "/" else t`: one trailing '/' removed. */
  function DropTrailingSlash(t: string): (r: string)
    ensures if t != [] && t[|t| - 1] == '/' then r + "/" == t else r == t
  {
    if t != [] && t[|t| - 1] == '/' then t[..|t| - 1] else t
  }

  /** Only one '/' goes: "fetched//" becomes "fetched/". */
  lemma DropsOneSlashOnly(t: string)
    ensures DropTrailingSlash(t + "//") == t + "/"
  {
  }

  /** `dirs.append(t)` unless `t in dirs`. */
  function AppendAbsent(dirs: seq<string>, t: string): (r: seq<string>)
    ensures t in r
    ensures t in dirs ==> r == dirs
    ensures t !in dirs ==> r == dirs + [t]
  {
    if t in dirs then dirs else dirs + [t]
  }

  /** Filling a shaped configuration from the command line gives every
      key the crawl reads a value of the type it is used as. */
  lemma FilledIsConfigured(config: map<string, Value>, args: Args, c: map<string, Value>)
    requires Shaped(config)
    requires forall i :: 0 <= i < |ArgItems(args)| ==>
      (ArgItems(args)[i].0 in c && c[ArgItems(args)[i].0] == Preferred(config, ArgItems(args)[i].0, ArgItems(args)[i].1))
    requires "url" in config && Truthy(config["url"])
    ensures Configured(c)
  {
    var items := ArgItems(args);
    assert items[0].0 == "url" && items[1].0 == "download" && items[2].0 == "follow";
    assert items[3].0 == "ignore_duplicates_in" && items[4].0 == "no_follow";
    assert items[5].0 == "target" && items[6].0 == "allow_netloc_change";
  }

  /** main.py:239-242: the target loses one trailing '/' and joins the
      directories searched for duplicates; nothing else changes. */
  function WithTargetIgnored(c: map<string, Value>): (r: map<string, Value>)
    requires Configured(c)
    ensures Configured(r) && TargetIgnored(r)
    ensures r.Keys == c.Keys
    ensures forall k :: k in c && k != "target" && k != "ignore_duplicates_in" ==> r[k] == c[k]
  {
    var target := DropTrailingSlash(c["target"].s);
    c["target" := Text(target)]["ignore_duplicates_in" := List(AppendAbsent(c["ignore_duplicates_in"].items, target))]
  }

  /** main.py:233-242: the configuration completed from the command line,
      its target without a trailing '/', and that target among the
      directories searched for duplicates. The base URLs have been checked
      to be present (main.py:226). */
  method NormaliseConfig(config: map<string, Value>, args: Args) returns (c: map<string, Value>)
    requires Shaped(config)
    requires "url" in config && Truthy(config["url"])
    ensures Configured(c) && TargetIgnored(c)
    ensures c.Keys == config.Keys + KeysOf(ArgItems(args))
    ensures c["url"] == config["url"]
    ensures c["target"] == Text(DropTrailingSlash(Preferred(config, "target", Text(args.target)).s))
    ensures c["ignore_duplicates_in"] ==
      List(AppendAbsent(Preferred(config, "ignore_duplicates_in", List(args.ignoreDuplicatesIn)).items, c["target"].s))
    ensures forall i :: 0 <= i < |ArgItems(args)| && ArgItems(args)[i].0 != "target" && ArgItems(args)[i].0 != "ignore_duplicates_in" ==>
      c[ArgItems(args)[i].0] == Preferred(config, ArgItems(args)[i].0, ArgItems(args)[i].1)
    ensures forall k :: k in config && k !in KeysOf(ArgItems(args)) ==> c[k] == config[k]
  {
    var items := ArgItems(args);
    var filled := FillFromArgs(config, items);
    FilledIsConfigured(config, args, filled);
    assert items[0].0 == "url" && items[3].0 == "ignore_duplicates_in" && items[5].0 == "target";
    c := WithTargetIgnored(filled);
  }
}
