/** The parts of a parsed `rules.yml`. */
module Document {
  import opened Tree
  import opened Resolver

  /** The mapping under a key; empty if there is none. */
  function DictOrEmpty(es: seq<Entry>, key: string): seq<Entry> {
    if Has(es, key) && Get(es, key).Dict? then Get(es, key).entries else []
  }

  /** The rules a document lists. */
  function Rules(raw: seq<Entry>): seq<Node> {
    if Has(raw, "rules") && Get(raw, "rules").List? then Get(raw, "rules").items else []
  }

  /** A mapping as a lookup table; a key's first entry counts, as for `Get`. */
  function Table(es: seq<Entry>): (m: map<string, Node>)
    ensures forall k :: k in m <==> Has(es, k)
    ensures forall k :: k in m ==> m[k] == Get(es, k)
  {
    if es == [] then map[] else Table(es[1..])[es[0].key := es[0].value]
  }

  /** The refs tables of a document. */
  function RefsOf(raw: seq<Entry>, show: Node -> string): Refs {
    var refs := DictOrEmpty(raw, "refs");
    Refs(Table(DictOrEmpty(refs, "vars")), Table(DictOrEmpty(refs, "conditions")), Table(DictOrEmpty(refs, "actions")), show)
  }

  /** The document writes these rules; none if it has no such key. */
  predicate Lists(raw: seq<Entry>, items: seq<Node>) {
    if Has(raw, "rules") then Get(raw, "rules") == List(items) else items == []
  }

  /** The document defines the block under `refs`, in a group, by a name. */
  predicate Defines(raw: seq<Entry>, group: string, name: string, block: Node) {
    && Has(raw, "refs") && Get(raw, "refs").Dict?
    && var refs := Get(raw, "refs").entries;
       && Has(refs, group) && Get(refs, group).Dict?
       && var es := Get(refs, group).entries; Has(es, name) && Get(es, name) == block
  }

  lemma RulesAreListed(raw: seq<Entry>, items: seq<Node>)
    requires Lists(raw, items)
    ensures Rules(raw) == items
  {
  }

  predicate Holds(m: map<string, Node>, name: string, block: Node) { name in m && m[name] == block }

  /** The tables hold exactly what the document defines, each block as it is written. */
  lemma TablesAreDefined(raw: seq<Entry>, show: Node -> string, name: string, block: Node)
    ensures var rs := RefsOf(raw, show);
            && rs.show == show
            && (Holds(rs.vars, name, block) <==> Defines(raw, "vars", name, block))
            && (Holds(rs.conditions, name, block) <==> Defines(raw, "conditions", name, block))
            && (Holds(rs.actions, name, block) <==> Defines(raw, "actions", name, block))
  {
    TableIsDefined(raw, "vars", name, block);
    TableIsDefined(raw, "conditions", name, block);
    TableIsDefined(raw, "actions", name, block);
  }

  lemma TableIsDefined(raw: seq<Entry>, group: string, name: string, block: Node)
    ensures Holds(Table(DictOrEmpty(DictOrEmpty(raw, "refs"), group)), name, block) <==> Defines(raw, group, name, block)
  {
  }
}
