/** Parsed YAML: what `rules.yml` is once loaded. */
module Tree {

  datatype Option<T> = None | Some(value: T)

  datatype Node =
    | Null
    | Bool(b: bool)
    | Num(n: real)
    | Str(s: string)
    | List(items: seq<Node>)
    | Dict(entries: seq<Entry>)

  /** One key of a mapping; mappings keep their order. */
  datatype Entry = Entry(key: string, value: Node)

  predicate Has(es: seq<Entry>, key: string) {
    es != [] && (es[0].key == key || Has(es[1..], key))
  }

  function Get(es: seq<Entry>, key: string): (v: Node)
    requires Has(es, key)
  {
    if es[0].key == key then es[0].value else Get(es[1..], key)
  }

  lemma {:induction false} SameKeys(es: seq<Entry>, es': seq<Entry>, key: string)
    requires |es| == |es'| && forall i :: 0 <= i < |es| ==> es[i].key == es'[i].key
    ensures Has(es, key) == Has(es', key)
  {
    if es != [] {
      SameKeys(es[1..], es'[1..], key);
    }
  }

  /** The part of `s` before its first dot. */
  function BeforeDot(s: string): (r: string)
    ensures '.' !in r && r <= s && ('.' in s ==> |r| < |s| && s[|r|] == '.') && ('.' !in s ==> r == s)
  {
    if s == "" || s[0] == '.' then "" else [s[0]] + BeforeDot(s[1..])
  }

  /** The part of `s` after its first dot. */
  function AfterDot(s: string): string
    requires '.' in s
  {
    s[|BeforeDot(s)| + 1..]
  }

  lemma {:induction false} BeforeDotIs(head: string, rest: string)
    requires '.' !in head && "." <= rest
    ensures BeforeDot(head + rest) == head
  {
    if head != "" {
      assert (head + rest)[1..] == head[1..] + rest;
      BeforeDotIs(head[1..], rest);
    } else {
      assert head + rest == rest;
    }
  }

  lemma DotParts(head: string, tail: string)
    requires '.' !in head
    ensures BeforeDot(head + "." + tail) == head && AfterDot(head + "." + tail) == tail
  {
    var s := head + "." + tail;
    BeforeDotIs(head, "." + tail);
    assert s == head + ("." + tail);
    assert s[|head| + 1..] == tail;
  }

  /** `needle in hay` for strings. */
  predicate Contains(hay: string, needle: string) {
    exists i :: 0 <= i <= |hay| && needle <= hay[i..]
  }
}
