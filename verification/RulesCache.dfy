/** `rules.yml` as the server holds it: loaded, resolved, cached and reloaded when the file changes. */
module RulesCache {
  import opened Document
  import opened Tree
  import opened Resolver
  import opened Tokens
  import opened Structure
  import Linter
  import Soundness

  datatype Stamp = Stamp(mtime: int, size: int, inode: int)

  /** The file on disk: missing, not readable as YAML, or holding a document. */
  datatype Disk = Missing | Unreadable(stamp: Stamp) | Yaml(stamp: Stamp, doc: Node)

  function StampOf(disk: Disk): Stamp { if disk.Missing? then Stamp(0, 0, 0) else disk.stamp }

  /** What one load gives: the rules and the tables of the resolver made with them. */
  datatype Loaded = Loaded(rules: seq<Node>, refs: Refs)

  /** `load_yaml_file`: a missing or empty file is an empty mapping. */
  function Parsed(disk: Disk): Option<Node> {
    if disk.Unreadable? then None
    else if disk.Missing? || disk.doc.Null? then Some(Dict([]))
    else Some(disk.doc)
  }

  /** What a load of the file gives, if the loader accepts it. */
  function Load(disk: Disk, show: Node -> string): Option<Loaded> {
    var doc := Parsed(disk);
    if doc.Some? && Loadable(doc.value)
    then Some(Loaded(Rules(doc.value.entries), RefsOf(doc.value.entries, show)))
    else None
  }

  /** Every rule resolved with the tables of the same load; none if one of them does not resolve. */
  function ResolveAll(rules: seq<Node>, refs: Refs): Option<seq<Node>> {
    if rules == [] then Some([]) else
      var first := if rules[0].Dict? then ResolveRule(refs, rules[0].entries) else Err(InvalidRef);
      var rest := ResolveAll(rules[1..], refs);
      if first.Ok? && rest.Some? then Some([Dict(first.value)] + rest.value) else None
  }

  function Resolved(l: Loaded): Option<seq<Node>> { ResolveAll(l.rules, l.refs) }

  /** A document the editor accepts loads, and all its rules resolve. */
  lemma AcceptedLoads(d: Linter.Details, raw: seq<Entry>, stamp: Stamp, show: Node -> string)
    requires Soundness.Accepted(d, raw, show)
    ensures Load(Yaml(stamp, Dict(raw)), show) == Some(Loaded(Rules(raw), RefsOf(raw, show)))
    ensures AllResolved(Rules(raw), RefsOf(raw, show))
  {
    AllResolve(Rules(raw), RefsOf(raw, show));
  }

  /** Each rule of an accepted document is served, resolved, as the linter promises. */
  lemma AcceptedIsServed(d: Linter.Details, raw: seq<Entry>, stamp: Stamp, show: Node -> string, i: nat)
    requires Soundness.Accepted(d, raw, show) && i < |Rules(raw)|
    ensures AllResolved(Rules(raw), RefsOf(raw, show)) && Rules(raw)[i].Dict?
    ensures Soundness.RuleSound(RefsOf(raw, show), Rules(raw)[i].entries)
    ensures ResolveAll(Rules(raw), RefsOf(raw, show)).value[i] ==
            Dict(ResolveRule(RefsOf(raw, show), Rules(raw)[i].entries).value)
  {
    AcceptedLoads(d, raw, stamp, show);
    Soundness.AcceptedRuleIsSound(d, raw, show, i);
  }

  ghost predicate AllResolved(rules: seq<Node>, refs: Refs) {
    var r := ResolveAll(rules, refs);
    && r.Some? && |r.value| == |rules|
    && forall i :: 0 <= i < |rules| ==>
         rules[i].Dict? && r.value[i].Dict? && ResolveRule(refs, rules[i].entries) == Ok(r.value[i].entries)
  }

  lemma {:induction false} AllResolve(rules: seq<Node>, refs: Refs)
    requires forall i :: 0 <= i < |rules| ==> rules[i].Dict? && ResolveRule(refs, rules[i].entries).Ok?
    ensures AllResolved(rules, refs)
  {
    if rules != [] {
      AllResolve(rules[1..], refs);
      assert rules == [rules[0]] + rules[1..];
    }
  }

  // ----- One call, as a change of state -----

  datatype State = State(loaded: Loaded, cache: Option<seq<Node>>, stamp: Option<Stamp>)

  /**
   * `reload_rules`: the stamp is taken from the file as it was when it was looked up, the content from
   * the file as it was when it was opened.
   */
  function Reload(s: State, seen: Disk, taken: Disk, force: bool): State {
    var l := Load(taken, s.loaded.refs.show);
    if (!force && s.stamp == Some(StampOf(seen))) || l.None? then s
    else State(l.value, None, Some(StampOf(seen)))
  }

  /** `get_rules`: reloads if need be, and fills the cache if everything resolves. */
  function AfterGet(s: State, seen: Disk, taken: Disk, resolved: bool): State {
    var t := Reload(s, seen, taken, false);
    if !resolved || t.cache.Some? then t else t.(cache := Resolved(t.loaded))
  }

  /** What `get_rules` returns; none if it raises. */
  function Gives(s: State, seen: Disk, taken: Disk, resolved: bool): Option<seq<Node>> {
    var t := AfterGet(s, seen, taken, resolved);
    if resolved then t.cache else Some(t.loaded.rules)
  }

  class Config {
    var rules: seq<Node>
    var resolver: Refs
    var cache: Option<seq<Node>>
    var stamp: Option<Stamp>

    constructor (loaded: Loaded)
      ensures View() == State(loaded, None, None)
    {
      rules, resolver, cache, stamp := loaded.rules, loaded.refs, None, None;
    }

    function View(): State
      reads this
    {
      State(Loaded(rules, resolver), cache, stamp)
    }

    /** `_load_rules`: nothing is assigned unless everything is valid. */
    method LoadRules(disk: Disk) returns (ok: bool)
      modifies this
      ensures var l := Load(disk, old(resolver).show);
              ok == l.Some? && View() == if ok then old(View()).(loaded := l.value, cache := None) else old(View())
      ensures ok ==> forall raw, items :: Parsed(disk) == Some(Dict(raw)) && Lists(raw, items) ==> rules == items
    {
      var doc := Parsed(disk);
      if doc.None? {
        return false;
      }
      var problems := CheckRulesStructure(doc.value);
      if problems != [] {
        return false;
      }
      var raw := doc.value.entries;
      rules := Rules(raw);
      resolver := RefsOf(raw, resolver.show);
      cache := None;
      ok := true;
    }

    /** `reload_rules`. */
    method ReloadRules(seen: Disk, taken: Disk, force: bool) returns (reloaded: bool)
      modifies this
      ensures View() == Reload(old(View()), seen, taken, force)
      ensures reloaded <==> (force || old(stamp) != Some(StampOf(seen))) && Load(taken, old(resolver).show).Some?
    {
      var now := StampOf(seen);
      if !force && stamp == Some(now) {
        return false;
      }
      reloaded := LoadRules(taken);
      if reloaded {
        stamp := Some(now);
      }
    }

    /** `get_rules`; none if a rule does not resolve. */
    method GetRules(seen: Disk, taken: Disk, resolved: bool) returns (r: Option<seq<Node>>)
      modifies this
      ensures View() == AfterGet(old(View()), seen, taken, resolved)
      ensures r == Gives(old(View()), seen, taken, resolved)
    {
      var _ := ReloadRules(seen, taken, false);
      if !resolved {
        return Some(rules);
      }
      if cache.Some? {
        return cache;
      }
      var all := ResolveEach(rules, resolver);
      if all.None? {
        return None;
      }
      cache := all;
      r := cache;
    }
  }

  /** Resolves the rules in order, and gives up at the first that does not resolve. */
  method ResolveEach(rules: seq<Node>, refs: Refs) returns (r: Option<seq<Node>>)
    ensures r == ResolveAll(rules, refs)
  {
    var out: seq<Node> := [];
    ghost var all := ResolveAll(rules, refs);
    assert rules[0..] == rules && (all.Some? ==> [] + all.value == all.value);
    for i := 0 to |rules|
      invariant ResolveAll(rules, refs) == Prepend(out, ResolveAll(rules[i..], refs))
    {
      ghost var rest := ResolveAll(rules[i + 1..], refs);
      assert rules[i..][1..] == rules[i + 1..];
      var one := if rules[i].Dict? then ResolveRule(refs, rules[i].entries) else Err(InvalidRef);
      if one.Err? {
        return None;
      }
      assert rest.Some? ==> out + ([Dict(one.value)] + rest.value) == out + [Dict(one.value)] + rest.value;
      out := out + [Dict(one.value)];
    }
    assert out + [] == out;
    r := Some(out);
  }

  function Prepend(a: seq<Node>, b: Option<seq<Node>>): Option<seq<Node>> {
    if b.Some? then Some(a + b.value) else None
  }

  /** The first load: the server does not start with a file the loader rejects. */
  method Open(disk: Disk, show: Node -> string) returns (config: Config?)
    ensures config != null <==> Load(disk, show).Some?
    ensures config != null ==> fresh(config) && config.View() == State(Load(disk, show).value, None, None)
  {
    var empty := new Config(Loaded([], Refs(map[], map[], map[], show)));
    var ok := empty.LoadRules(disk);
    config := if ok then empty else null;
  }

  // ----- Every run -----

  /** The cache is empty or holds the loaded rules, resolved with the tables loaded with them. */
  predicate Consistent(s: State) { s.cache.None? || s.cache == Resolved(s.loaded) }

  /** A call of `get_rules`, or of `reload_rules` with or without force. */
  datatype Call =
    | GetCall(seen: Disk, taken: Disk, resolved: bool)
    | ReloadCall(seen: Disk, taken: Disk, force: bool)

  function Do(s: State, call: Call): State {
    match call
    case GetCall(seen, taken, resolved) => AfterGet(s, seen, taken, resolved)
    case ReloadCall(seen, taken, force) => Reload(s, seen, taken, force)
  }

  function DoAll(s: State, calls: seq<Call>): State
    decreases |calls|
  {
    if calls == [] then s else DoAll(Do(s, calls[0]), calls[1..])
  }

  /** Whatever the file does between and during calls, the cache is never of another load than the rules. */
  lemma {:induction false} AlwaysConsistent(s: State, calls: seq<Call>)
    requires Consistent(s)
    ensures Consistent(DoAll(s, calls))
    decreases |calls|
  {
    if calls != [] {
      AlwaysConsistent(Do(s, calls[0]), calls[1..]);
    }
  }

  /** A file the loader rejects changes nothing, so the next call tries it again; a good one is then served. */
  lemma RejectedThenRetried(s: State, bad: Disk, good: Disk)
    requires Load(bad, s.loaded.refs.show).None? && s.stamp != Some(StampOf(bad)) && Consistent(s)
    ensures Reload(s, bad, bad, false) == s
    ensures AfterGet(s, bad, bad, false) == s && AfterGet(s, bad, bad, true).loaded == s.loaded
    ensures StampOf(good) == StampOf(bad) && Load(good, s.loaded.refs.show).Some? ==>
              Gives(AfterGet(s, bad, bad, true), good, good, true) == Resolved(Load(good, s.loaded.refs.show).value)
  {
  }

  // ----- A file that changes while it is used -----

  datatype Kind = Getting(resolved: bool) | Reloading(force: bool)

  /** A call that looks at the file at one moment and opens it at the same moment or a later one. */
  datatype Timed = Timed(seen: nat, taken: nat, kind: Kind)

  /** Calls one after the other, from moment `now` of the file's history on. */
  predicate InOrder(timeline: seq<Disk>, calls: seq<Timed>, now: nat)
    decreases |calls|
  {
    calls == []
    || (now <= calls[0].seen <= calls[0].taken < |timeline| && InOrder(timeline, calls[1..], calls[0].taken))
  }

  /** When the last of them opened the file. */
  function EndOf(calls: seq<Timed>, now: nat): nat { if calls == [] then now else calls[|calls| - 1].taken }

  function CallsOf(timeline: seq<Disk>, calls: seq<Timed>, now: nat): seq<Call>
    requires InOrder(timeline, calls, now)
    decreases |calls|
  {
    if calls == [] then [] else [CallOf(timeline, calls[0])] + CallsOf(timeline, calls[1..], calls[0].taken)
  }

  function CallOf(timeline: seq<Disk>, c: Timed): Call
    requires c.seen < |timeline| && c.taken < |timeline|
  {
    match c.kind
    case Getting(resolved) => GetCall(timeline[c.seen], timeline[c.taken], resolved)
    case Reloading(force) => ReloadCall(timeline[c.seen], timeline[c.taken], force)
  }

  /** The stamp is that of the file at moment `i`, and what is loaded is what it held at moment `j`. */
  ghost predicate From(s: State, timeline: seq<Disk>, show: Node -> string, i: nat, j: nat) {
    && i < |timeline| && s.stamp == Some(StampOf(timeline[i]))
    && j < |timeline| && Some(s.loaded) == Load(timeline[j], show)
  }

  /** The stamp and the content are of the file at two moments, the content's no earlier than the stamp's. */
  ghost predicate Tracks(s: State, timeline: seq<Disk>, show: Node -> string, now: nat) {
    && s.loaded.refs.show == show
    && (s.stamp.Some? ==> exists i: nat, j: nat :: i <= j <= now && From(s, timeline, show, i, j))
  }

  lemma ReloadTracks(s: State, timeline: seq<Disk>, show: Node -> string, now: nat, i: nat, j: nat, force: bool)
    requires Tracks(s, timeline, show, now) && now <= i <= j < |timeline|
    ensures Tracks(Reload(s, timeline[i], timeline[j], force), timeline, show, j)
  {
    var t := Reload(s, timeline[i], timeline[j], force);
    if t != s {
      assert From(t, timeline, show, i, j);
    }
  }

  /** Filling the cache changes neither stamp nor rules. */
  lemma CacheTracks(s: State, t: State, timeline: seq<Disk>, show: Node -> string, now: nat)
    requires Tracks(s, timeline, show, now) && t.stamp == s.stamp && t.loaded == s.loaded
    ensures Tracks(t, timeline, show, now)
  {
    if s.stamp.Some? {
      var i: nat, j: nat :| i <= j <= now && From(s, timeline, show, i, j);
      assert From(t, timeline, show, i, j);
    }
  }

  lemma DoAllCons(s: State, call: Call, rest: seq<Call>)
    ensures DoAll(s, [call] + rest) == DoAll(Do(s, call), rest)
  {
    assert ([call] + rest)[1..] == rest;
  }

  lemma CallTracks(s: State, timeline: seq<Disk>, show: Node -> string, c: Timed, now: nat)
    requires Tracks(s, timeline, show, now) && now <= c.seen <= c.taken < |timeline|
    ensures Tracks(Do(s, CallOf(timeline, c)), timeline, show, c.taken)
  {
    var force := c.kind.Reloading? && c.kind.force;
    var t := Reload(s, timeline[c.seen], timeline[c.taken], force);
    ReloadTracks(s, timeline, show, now, c.seen, c.taken, force);
    CacheTracks(t, Do(s, CallOf(timeline, c)), timeline, show, c.taken);
  }

  lemma {:induction false} RunTracks(s: State, timeline: seq<Disk>, show: Node -> string, calls: seq<Timed>, now: nat)
    requires InOrder(timeline, calls, now) && Tracks(s, timeline, show, now)
    ensures Tracks(DoAll(s, CallsOf(timeline, calls, now)), timeline, show, EndOf(calls, now))
    decreases |calls|
  {
    if calls != [] {
      var c, rest := calls[0], CallsOf(timeline, calls[1..], calls[0].taken);
      CallTracks(s, timeline, show, c, now);
      DoAllCons(s, CallOf(timeline, c), rest);
      RunTracks(Do(s, CallOf(timeline, c)), timeline, show, calls[1..], c.taken);
    }
  }

  /** After these calls, a call made while the file rests at moment `k` has that file's rules loaded, if it loads. */
  ghost predicate CurrentAfter(s: State, timeline: seq<Disk>, calls: seq<Timed>, k: nat) {
    InOrder(timeline, calls, 0) && EndOf(calls, 0) <= k < |timeline| && Load(timeline[k], s.loaded.refs.show).Some? ==>
      Some(AfterGet(DoAll(s, CallsOf(timeline, calls, 0)), timeline[k], timeline[k], true).loaded)
      == Load(timeline[k], s.loaded.refs.show)
  }

  /** Between two moments with the same stamp the file never held anything else that loads. */
  ghost predicate StampsTell(timeline: seq<Disk>, show: Node -> string) {
    forall i, j, k :: 0 <= i <= j <= k < |timeline| ==> Tells(timeline, show, i, j, k)
  }

  ghost predicate Tells(timeline: seq<Disk>, show: Node -> string, i: nat, j: nat, k: nat)
    requires i <= j <= k < |timeline|
  {
    StampOf(timeline[i]) == StampOf(timeline[k]) && Load(timeline[j], show).Some? && Load(timeline[k], show).Some? ==>
      Load(timeline[j], show) == Load(timeline[k], show)
  }

  /** Stamps that never come back tell. */
  lemma DistinctStampsTell(timeline: seq<Disk>, show: Node -> string)
    requires forall i, j :: 0 <= i < j < |timeline| ==> StampOf(timeline[i]) != StampOf(timeline[j])
    ensures StampsTell(timeline, show)
  {
  }

  lemma RestingFile(s: State, timeline: seq<Disk>, show: Node -> string, last: nat, k: nat)
    requires StampsTell(timeline, show) && Tracks(s, timeline, show, last)
    requires last <= k < |timeline| && Load(timeline[k], show).Some?
    ensures Some(Reload(s, timeline[k], timeline[k], false).loaded) == Load(timeline[k], show)
  {
    if s.stamp == Some(StampOf(timeline[k])) {
      var i: nat, j: nat :| i <= j <= last && From(s, timeline, show, i, j);
      assert Tells(timeline, show, i, j, k);
    }
  }

  lemma TellingStampsCurrent(s: State, timeline: seq<Disk>, calls: seq<Timed>, k: nat)
    requires s.stamp.None? && StampsTell(timeline, s.loaded.refs.show)
    ensures CurrentAfter(s, timeline, calls, k)
  {
    var show := s.loaded.refs.show;
    if InOrder(timeline, calls, 0) && EndOf(calls, 0) <= k < |timeline| && Load(timeline[k], show).Some? {
      RunTracks(s, timeline, show, calls, 0);
      RestingFile(DoAll(s, CallsOf(timeline, calls, 0)), timeline, show, EndOf(calls, 0), k);
    }
  }

  /**
   * If the file is looked up at `i` and opened at `j`, and at `k` is another file under the stamp of `i`,
   * then the rules of `j` stay in force at `k`.
   */
  lemma RecurringStampServesStaleRules(s: State, timeline: seq<Disk>, i: nat, j: nat, k: nat)
    requires s.stamp.None? && i <= j <= k < |timeline| && !Tells(timeline, s.loaded.refs.show, i, j, k)
    ensures !CurrentAfter(s, timeline, [Timed(i, j, Getting(true))], k)
  {
    var calls := [Timed(i, j, Getting(true))];
    assert calls[1..] == [] && InOrder(timeline, calls, 0);
    var call := GetCall(timeline[i], timeline[j], true);
    assert CallsOf(timeline, calls, 0) == [call] && [call][1..] == [];
    assert DoAll(s, [call]) == Do(s, call);
  }

  /**
   * Every run of calls, resolved or not, forced or not, with the file changing at any moment, leaves the
   * rules of a file that rests in force exactly if equal stamps never hide another file between them.
   */
  lemma CurrentIffStampsTell(s: State, timeline: seq<Disk>)
    requires s.stamp.None?
    ensures (forall calls, k :: CurrentAfter(s, timeline, calls, k)) <==> StampsTell(timeline, s.loaded.refs.show)
  {
    var show := s.loaded.refs.show;
    if StampsTell(timeline, show) {
      forall calls, k ensures CurrentAfter(s, timeline, calls, k) {
        TellingStampsCurrent(s, timeline, calls, k);
      }
    } else {
      var i, j, k :| 0 <= i <= j <= k < |timeline| && !Tells(timeline, show, i, j, k);
      RecurringStampServesStaleRules(s, timeline, i, j, k);
    }
  }

  /** And what `get_rules` returns then is that file's rules, resolved. */
  lemma CurrentRulesServed(s: State, timeline: seq<Disk>, calls: seq<Timed>, k: nat)
    requires Consistent(s) && CurrentAfter(s, timeline, calls, k)
    requires InOrder(timeline, calls, 0) && EndOf(calls, 0) <= k < |timeline|
    requires Load(timeline[k], s.loaded.refs.show).Some?
    ensures Gives(DoAll(s, CallsOf(timeline, calls, 0)), timeline[k], timeline[k], true)
            == Resolved(Load(timeline[k], s.loaded.refs.show).value)
  {
    AlwaysConsistent(s, CallsOf(timeline, calls, 0));
    ConsistentGives(DoAll(s, CallsOf(timeline, calls, 0)), timeline[k]);
  }

  lemma ConsistentGives(s: State, disk: Disk)
    requires Consistent(s)
    ensures Gives(s, disk, disk, true) == Resolved(AfterGet(s, disk, disk, true).loaded)
  {
  }
}
