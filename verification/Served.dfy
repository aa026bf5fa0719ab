/** What is served, in terms of what `rules.yml` writes. */
module Served {
  import opened Document
  import opened Tree
  import opened Resolver
  import opened Tokens
  import opened Structure
  import opened RulesCache
  import opened Validation
  import Linter
  import Soundness

  // ----- One load -----

  /**
   * A load fails exactly for a file that cannot be read as YAML, or whose document is not empty and not
   * of the shape the loader demands. A missing or empty file is no rules and no tables.
   */
  lemma LoadFailsIff(disk: Disk, show: Node -> string)
    ensures Load(disk, show).None? <==> disk.Unreadable? || (disk.Yaml? && !disk.doc.Null? && !Loadable(disk.doc))
    ensures disk.Missing? || (disk.Yaml? && disk.doc.Null?) ==>
              Load(disk, show) == Some(Loaded([], Refs(map[], map[], map[], show)))
  {
  }

  /** A load gives the rules and the tables exactly as the document writes them. */
  lemma LoadsAsWritten(stamp: Stamp, raw: seq<Entry>, show: Node -> string, items: seq<Node>, name: string, block: Node)
    requires Loadable(Dict(raw)) && Lists(raw, items)
    ensures Load(Yaml(stamp, Dict(raw)), show).Some?
    ensures var l := Load(Yaml(stamp, Dict(raw)), show).value;
            && l.rules == items && l.refs.show == show
            && (Holds(l.refs.vars, name, block) <==> Defines(raw, "vars", name, block))
            && (Holds(l.refs.conditions, name, block) <==> Defines(raw, "conditions", name, block))
            && (Holds(l.refs.actions, name, block) <==> Defines(raw, "actions", name, block))
  {
    RulesAreListed(raw, items);
    TablesAreDefined(raw, show, name, block);
  }

  /** A file that does not load changes neither the rules nor the cache, forced or not, and is tried again. */
  lemma UnreadableKeepsRules(s: State, seen: Disk, bad: Disk, force: bool)
    requires bad.Unreadable? || (bad.Yaml? && !bad.doc.Null? && !Loadable(bad.doc))
    ensures Reload(s, seen, bad, force) == s
    ensures AfterGet(s, seen, bad, false) == s && Gives(s, seen, bad, false) == Some(s.loaded.rules)
    ensures AfterGet(s, seen, bad, true).loaded == s.loaded && AfterGet(s, seen, bad, true).stamp == s.stamp
    ensures s.cache.Some? ==> AfterGet(s, seen, bad, true) == s && Gives(s, seen, bad, true) == s.cache
  {
    LoadFailsIff(bad, s.loaded.refs.show);
  }

  // ----- All rules resolved -----

  /** The rules are resolved if each of them resolves, in their order, and otherwise none is given. */
  lemma {:induction false} ResolvedIff(rules: seq<Node>, refs: Refs)
    ensures ResolveAll(rules, refs).Some? <==> forall i :: 0 <= i < |rules| ==> Resolves(rules[i], refs)
    ensures ResolveAll(rules, refs).Some? ==>
              var r := ResolveAll(rules, refs).value;
              && |r| == |rules|
              && forall i :: 0 <= i < |rules| ==>
                   r[i].Dict? && rules[i].Dict? && ResolveRule(refs, rules[i].entries) == Ok(r[i].entries)
  {
    if rules != [] {
      ResolvedIff(rules[1..], refs);
      assert forall i :: 0 < i < |rules| ==> rules[i] == rules[1..][i - 1];
      assert forall i :: 0 <= i < |rules| - 1 ==> rules[1..][i] == rules[i + 1];
    }
  }

  /** `r` is the rules as written, each resolved, in their order. */
  predicate ServesEach(rs: Refs, items: seq<Node>, r: seq<Node>) {
    && |r| == |items|
    && forall i :: 0 <= i < |items| ==>
         r[i].Dict? && items[i].Dict? && ResolveRule(rs, items[i].entries) == Ok(r[i].entries)
  }

  /**
   * After the file is loaded, asking for the rules gives those the document writes: as they are, or each
   * resolved with the document's tables; and none exactly if one of them does not resolve.
   */
  lemma ServedAsWritten(s: State, seen: Disk, stamp: Stamp, raw: seq<Entry>, items: seq<Node>)
    requires Loadable(Dict(raw)) && Lists(raw, items) && s.stamp != Some(StampOf(seen))
    ensures var disk, rs := Yaml(stamp, Dict(raw)), RefsOf(raw, s.loaded.refs.show);
            && Gives(s, seen, disk, false) == Some(items)
            && (Gives(s, seen, disk, true).Some? <==> forall i :: 0 <= i < |items| ==> Resolves(items[i], rs))
            && (Gives(s, seen, disk, true).Some? ==> ServesEach(rs, items, Gives(s, seen, disk, true).value))
  {
    RulesAreListed(raw, items);
    ResolvedIff(items, RefsOf(raw, s.loaded.refs.show));
  }

  /** A forced reload loads what the document writes, whatever the stamp is. */
  lemma ForcedReloadLoads(s: State, seen: Disk, stamp: Stamp, raw: seq<Entry>, items: seq<Node>)
    requires Loadable(Dict(raw)) && Lists(raw, items)
    ensures Reload(s, seen, Yaml(stamp, Dict(raw)), true)
            == State(Loaded(items, RefsOf(raw, s.loaded.refs.show)), None, Some(StampOf(seen)))
  {
    RulesAreListed(raw, items);
  }

  // ----- While the file changes -----

  /**
   * When the file rests and stamps tell, what is served is what that file writes, every rule of it resolved.
   */
  lemma RestingFileIsServed(s: State, timeline: seq<Disk>, calls: seq<Timed>, k: nat, raw: seq<Entry>, items: seq<Node>)
    requires s.stamp.None? && Consistent(s) && StampsTell(timeline, s.loaded.refs.show)
    requires InOrder(timeline, calls, 0) && EndOf(calls, 0) <= k < |timeline|
    requires timeline[k].Yaml? && timeline[k].doc == Dict(raw) && Loadable(Dict(raw)) && Lists(raw, items)
    ensures var r := Gives(DoAll(s, CallsOf(timeline, calls, 0)), timeline[k], timeline[k], true);
            var rs := RefsOf(raw, s.loaded.refs.show);
            && (r.Some? <==> forall i :: 0 <= i < |items| ==> Resolves(items[i], rs))
            && (r.Some? ==> ServesEach(rs, items, r.value))
  {
    RulesAreListed(raw, items);
    ResolvedIff(items, RefsOf(raw, s.loaded.refs.show));
    TellingStampsCurrent(s, timeline, calls, k);
    CurrentRulesServed(s, timeline, calls, k);
  }

  /** Every rule an accepted document writes is served, in its place, as the linter promises. */
  lemma AcceptedIsServed(d: Linter.Details, s: State, seen: Disk, stamp: Stamp, raw: seq<Entry>, items: seq<Node>)
    requires Soundness.Accepted(d, raw, s.loaded.refs.show) && Lists(raw, items) && s.stamp != Some(StampOf(seen))
    ensures var rs, r := RefsOf(raw, s.loaded.refs.show), Gives(s, seen, Yaml(stamp, Dict(raw)), true);
            && r.Some? && ServesEach(rs, items, r.value)
            && forall i :: 0 <= i < |items| ==> items[i].Dict? && Soundness.RuleSound(rs, items[i].entries)
  {
    EveryRuleIsSound(d, raw, s.loaded.refs.show, items);
    ServedAsWritten(s, seen, stamp, raw, items);
  }
}
