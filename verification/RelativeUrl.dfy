/** Links relative to the current page, and RFC 3986 reference resolution, which undoes them. */
module RelativeUrl {
  import opened Text
  import opened Tree

  // ----- Reference resolution, sections 5.2.2 to 5.2.4 of RFC 3986 -----

  /** A reference without scheme and authority. */
  datatype Ref = Ref(path: string, query: Option<string>, fragment: Option<string>)

  /** The text before the first `c`, and the text after it if there is one. */
  function Cut(s: string, c: char): (string, Option<string>) {
    if c in s then
      var pieces := Split(s, c);
      (pieces[0], Some(Join(pieces[1..], c)))
    else (s, None)
  }

  /** A fragment starts at the first `#`, a query at the first `?` before it (sections 3.4 and 3.5). */
  function ParseRef(s: string): Ref {
    var (rest, fragment) := Cut(s, '#');
    var (path, query) := Cut(rest, '?');
    Ref(path, query, fragment)
  }

  /** The base path up to its last slash (section 5.2.3). */
  function UpToLastSlash(path: string): string {
    if path == "" then ""
    else if path[|path| - 1] == '/' then path
    else UpToLastSlash(path[..|path| - 1])
  }

  /** Takes the last segment and the slash before it, if any, off the output buffer. */
  function Pop(output: string): (r: string)
    ensures |r| <= |output|
  {
    if output == "" then ""
    else if output[|output| - 1] == '/' then output[..|output| - 1]
    else Pop(output[..|output| - 1])
  }

  /** Where the first segment of the input buffer ends; an initial slash belongs to the segment. */
  function FirstSegment(input: string): (n: nat)
    requires input != ""
    ensures 1 <= n <= |input|
  {
    if |input| > 1 && input[1] != '/' then 1 + FirstSegment(input[1..]) else 1
  }

  /** "Remove dot segments", steps 2A to 2E of section 5.2.4. */
  function RemoveDots(input: string, output: string): string
    decreases |input|
  {
    if input == "" then output
    else if "../" <= input then RemoveDots(input[3..], output)
    else if "./" <= input then RemoveDots(input[2..], output)
    else if "/./" <= input then RemoveDots(input[2..], output)
    else if input == "/." then RemoveDots("/", output)
    else if "/../" <= input then RemoveDots(input[3..], Pop(output))
    else if input == "/.." then RemoveDots("/", Pop(output))
    else if input == "." || input == ".." then output
    else
      var n := FirstSegment(input);
      RemoveDots(input[n..], output + input[..n])
  }

  /** The target of a reference on a page at an absolute path with no query. */
  function Resolve(base: string, s: string): Ref {
    var r := ParseRef(s);
    if r.path == "" then r.(path := base)
    else if "/" <= r.path then r.(path := RemoveDots(r.path, ""))
    else r.(path := RemoveDots(UpToLastSlash(base) + r.path, ""))
  }

  // ----- Removing dot segments, segment by segment -----

  predicate Segments(segs: seq<string>) {
    forall i :: 0 <= i < |segs| ==> '/' !in segs[i]
  }

  predicate DotFree(segs: seq<string>) {
    forall i :: 0 <= i < |segs| ==> segs[i] != "." && segs[i] != ".."
  }

  /** What one segment that is not the last does to the output. */
  function Step(seg: string, output: string): string {
    if seg == "." then output else if seg == ".." then Pop(output) else output + "/" + seg
  }

  function Steps(segs: seq<string>, output: string): string {
    if segs == [] then output else Steps(segs[1..], Step(segs[0], output))
  }

  function Last(seg: string, output: string): string {
    if seg == "." then output + "/" else if seg == ".." then Pop(output) + "/" else output + "/" + seg
  }

  /** An absolute path. */
  function Path(segs: seq<string>): string { "/" + Join(segs, '/') }

  lemma {:induction false} FirstSegmentIs(seg: string, rest: string, c: char)
    requires '/' !in seg && (rest == "" || rest[0] == '/')
    ensures FirstSegment([c] + seg + rest) == |seg| + 1
  {
    var input := [c] + seg + rest;
    if seg != "" {
      assert input[1..] == [seg[0]] + seg[1..] + rest;
      FirstSegmentIs(seg[1..], rest, seg[0]);
    } else {
      assert input == [c] + rest;
    }
  }

  lemma {:induction false} PopSegment(output: string, seg: string)
    requires '/' !in seg
    ensures Pop(output + "/" + seg) == output
  {
    var s := output + "/" + seg;
    if seg == "" {
      assert s[|s| - 1] == '/' && s[..|s| - 1] == output;
    } else {
      assert seg[|seg| - 1] in seg;
      assert s[|s| - 1] == seg[|seg| - 1];
      var shorter := output + "/" + seg[..|seg| - 1];
      assert s[..|s| - 1] == shorter;
      PopSegment(output, seg[..|seg| - 1]);
      assert Pop(s) == Pop(shorter);
    }
  }

  /** The inputs of which step 2E does not just move the first segment to the output. */
  predicate Dotted(input: string) {
    || "../" <= input || "./" <= input || "/./" <= input || input == "/." || "/../" <= input || input == "/.."
    || input == "." || input == ".."
  }

  lemma UndottedStart(input: string)
    requires input != "" && input[0] == '/'
    requires |input| >= 2 && input[1] == '.' ==>
               |input| >= 3 && input[2] != '/' && (input[2] == '.' ==> |input| >= 4 && input[3] != '/')
    ensures !Dotted(input)
  {
  }

  lemma NotDotted(seg: string, rest: string)
    requires '/' !in seg && seg != "." && seg != ".." && (rest == "" || "/" <= rest)
    ensures !Dotted("/" + seg + rest)
  {
    var input := "/" + seg + rest;
    assert forall i :: 0 <= i < |seg| ==> input[i + 1] == seg[i] && seg[i] in seg;
    assert |seg| == 1 ==> seg == [seg[0]];
    assert |seg| == 2 ==> seg == [seg[0], seg[1]];
    assert rest != "" ==> input[|seg| + 1] == '/';
    UndottedStart(input);
  }

  lemma RemovePlain(seg: string, rest: string, output: string)
    requires '/' !in seg && seg != "." && seg != ".." && (rest == "" || "/" <= rest)
    ensures RemoveDots("/" + seg + rest, output) == RemoveDots(rest, output + "/" + seg)
  {
    var input := "/" + seg + rest;
    NotDotted(seg, rest);
    FirstSegmentIs(seg, rest, '/');
    assert input[..|seg| + 1] == "/" + seg && input[|seg| + 1..] == rest;
    assert output + ("/" + seg) == output + "/" + seg;
  }

  lemma RemoveUp(rest: string, output: string)
    requires "/" <= rest
    ensures RemoveDots("/" + ".." + rest, output) == RemoveDots(rest, Pop(output))
  {
    var input := "/" + ".." + rest;
    assert input[0] == '/' && input[2] == '.' && "/../" <= input;
    assert !("../" <= input) && !("./" <= input) && !("/./" <= input) && input != "/.";
    assert input[3..] == rest;
  }

  lemma RemoveHere(rest: string, output: string)
    requires "/" <= rest
    ensures RemoveDots("/" + "." + rest, output) == RemoveDots(rest, output)
  {
    var input := "/" + "." + rest;
    assert input[0] == '/' && "/./" <= input && input[2..] == rest;
  }

  /** A slash, then a segment, then the rest of the input. */
  lemma RemoveFirst(seg: string, rest: string, output: string)
    requires '/' !in seg && "/" <= rest
    ensures RemoveDots("/" + seg + rest, output) == RemoveDots(rest, Step(seg, output))
  {
    if seg == "." {
      RemoveHere(rest, output);
    } else if seg == ".." {
      RemoveUp(rest, output);
    } else {
      RemovePlain(seg, rest, output);
    }
  }

  lemma RemoveSlash(output: string)
    ensures RemoveDots("/", output) == output + "/"
  {
    RemovePlain("", "", output);
    assert "/" + "" + "" == "/" && output + "/" + "" == output + "/";
  }

  lemma RemoveHereLast(input: string, output: string)
    requires input == "/."
    ensures RemoveDots(input, output) == RemoveDots("/", output)
  {
    assert input[0] == '/' && input[1] == '.';
  }

  lemma RemoveUpLast(input: string, output: string)
    requires input == "/.."
    ensures RemoveDots(input, output) == RemoveDots("/", Pop(output))
  {
    assert input[0] == '/' && input[1] == '.' && input[2] == '.';
  }

  lemma RemoveLast(seg: string, output: string)
    requires '/' !in seg
    ensures RemoveDots("/" + seg, output) == Last(seg, output)
  {
    if seg == "." {
      RemoveHereLast("/" + seg, output);
      RemoveSlash(output);
    } else if seg == ".." {
      RemoveUpLast("/" + seg, output);
      RemoveSlash(Pop(output));
    } else {
      RemovePlain(seg, "", output);
      assert "/" + seg + "" == "/" + seg;
    }
  }

  /** Removing dot segments runs over the segments from left to right. */
  lemma {:induction false} RemoveDotsSteps(segs: seq<string>, last: string, output: string)
    requires Segments(segs) && '/' !in last
    ensures RemoveDots(Path(segs + [last]), output) == Last(last, Steps(segs, output))
    decreases |segs|
  {
    if segs == [] {
      assert segs + [last] == [last];
      RemoveLast(last, output);
    } else {
      var rest := segs[1..] + [last];
      assert (segs + [last])[1..] == rest;
      assert Path(segs + [last]) == "/" + segs[0] + Path(rest);
      RemoveFirst(segs[0], Path(rest), output);
      RemoveDotsSteps(segs[1..], last, Step(segs[0], output));
    }
  }

  lemma {:induction false} StepsAppend(segs: seq<string>, more: seq<string>, output: string)
    ensures Steps(segs + more, output) == Steps(more, Steps(segs, output))
    decreases |segs|
  {
    if segs == [] {
      assert segs + more == more;
    } else {
      assert (segs + more)[1..] == segs[1..] + more;
      StepsAppend(segs[1..], more, Step(segs[0], output));
    }
  }

  /** As many `..` as there were plain segments take them off again. */
  lemma {:induction false} StepsUndo(segs: seq<string>, output: string)
    requires Segments(segs) && DotFree(segs)
    ensures Steps(segs + seq(|segs|, _ => ".."), output) == output
    decreases |segs|
  {
    var ups := seq(|segs|, _ => "..");
    if segs != [] {
      var init, seg := segs[..|segs| - 1], segs[|segs| - 1];
      var ups' := seq(|init|, _ => "..");
      assert segs + ups == init + ([seg, ".."] + ups') by {
        assert ups == [".."] + ups';
        assert segs == init + [seg];
      }
      StepsAppend(init, [seg, ".."] + ups', output);
      var mid := Steps(init, output);
      PopSegment(mid, seg);
      assert ([seg, ".."] + ups')[1..] == [".."] + ups' && ([".."] + ups')[1..] == ups';
      assert Steps([seg, ".."] + ups', mid) == Steps(ups', mid);
      StepsUndo(init, output);
      StepsAppend(init, ups', output);
    } else {
      assert segs + ups == [];
    }
  }

  /** Without dot segments nothing changes. */
  lemma {:induction false} StepsPlain(segs: seq<string>, last: string, output: string)
    requires Segments(segs) && DotFree(segs + [last])
    ensures Last(last, Steps(segs, output)) == output + Path(segs + [last])
    decreases |segs|
  {
    if segs == [] {
      assert segs + [last] == [last] && last in segs + [last];
      assert (segs + [last])[0] == last;
    } else {
      var rest := segs[1..] + [last];
      assert (segs + [last])[1..] == rest;
      assert (segs + [last])[0] == segs[0];
      StepsPlain(segs[1..], last, output + "/" + segs[0]);
      assert output + "/" + segs[0] + Path(rest) == output + Path(segs + [last]);
    }
  }

  // ----- Absolute paths as segments -----

  predicate Absolute(path: string) { "/" <= path }

  /** What a reverse proxy, or the root path, puts in front of every path: nothing, or an absolute path. */
  predicate Prefix(p: string) { p == "" || Absolute(p) }

  /** The segments of an absolute path, or of an empty prefix. */
  function SegmentsOf(path: string): seq<string> { Split(path, '/')[1..] }

  lemma PathOf(path: string)
    requires Absolute(path)
    ensures |SegmentsOf(path)| >= 1 && Segments(SegmentsOf(path)) && Path(SegmentsOf(path)) == path
  {
    SplitPieces(path, '/');
    JoinSplit(path, '/');
    assert path == "/" + path[1..];
    assert Split(path, '/')[1..] == Split(path[1..], '/');
    JoinSplit(path[1..], '/');
  }

  lemma {:induction false} JoinAppend(segs: seq<string>, more: seq<string>)
    requires segs != [] && more != []
    ensures Join(segs + more, '/') == Join(segs, '/') + "/" + Join(more, '/')
    decreases |segs|
  {
    assert (segs + more)[1..] == segs[1..] + more;
    if |segs| > 1 {
      JoinAppend(segs[1..], more);
    } else {
      assert segs[1..] + more == more;
    }
  }

  lemma PrefixPath(x: string, y: string)
    ensures ("/" + x) + ("/" + y) == "/" + (x + "/" + y)
  {
  }

  /** A prefix in front of an absolute path puts its segments first. */
  lemma PrefixSegments(p: string, segs: seq<string>)
    requires Prefix(p) && segs != []
    ensures Segments(SegmentsOf(p))
    ensures p + Path(segs) == Path(SegmentsOf(p) + segs)
  {
    SplitPieces(p, '/');
    if p == "" {
      assert SegmentsOf(p) + segs == segs;
    } else {
      var base := SegmentsOf(p);
      PathOf(p);
      JoinAppend(base, segs);
      PrefixPath(Join(base, '/'), Join(segs, '/'));
    }
  }

  lemma {:induction false} UpToLastSlashIs(head: string, last: string)
    requires '/' !in last
    ensures UpToLastSlash(head + "/" + last) == head + "/"
  {
    var s := head + "/" + last;
    if last == "" {
      assert s == head + "/";
    } else {
      assert s[|s| - 1] == last[|last| - 1] && s[..|s| - 1] == head + "/" + last[..|last| - 1];
      UpToLastSlashIs(head, last[..|last| - 1]);
    }
  }

  /** The path of segments and more segments, joined by a slash. */
  lemma PathAppend(segs: seq<string>, more: seq<string>)
    requires segs != [] && more != []
    ensures Path(segs + more) == Path(segs) + "/" + Join(more, '/')
  {
    JoinAppend(segs, more);
    assert "/" + (Join(segs, '/') + "/" + Join(more, '/')) == "/" + Join(segs, '/') + "/" + Join(more, '/');
  }

  /** Merging a relative path into the base replaces the base's last segment. */
  lemma Merge(segs: seq<string>, last: string, more: seq<string>)
    requires '/' !in last && more != []
    ensures UpToLastSlash(Path(segs + [last])) + Join(more, '/') == Path(segs + more)
  {
    if segs == [] {
      MergeTop(last, more);
      assert segs + [last] == [last] && segs + more == more;
    } else {
      PathAppend(segs, [last]);
      PathAppend(segs, more);
      UpToLastSlashIs(Path(segs), last);
    }
  }

  lemma MergeTop(last: string, more: seq<string>)
    requires '/' !in last && more != []
    ensures UpToLastSlash(Path([last])) + Join(more, '/') == Path(more)
  {
    assert Path([last]) == "" + "/" + last && "" + "/" == "/";
    UpToLastSlashIs("", last);
  }

  // ----- Relative links -----

  /** The directory of the page at `path`. */
  function Directory(path: string): seq<string> {
    var pieces := Split(path, '/');
    if |pieces| < 2 then [] else pieces[1..|pieces| - 1]
  }

  /** How many leading directories the page and the target share. */
  function Shared(here: seq<string>, there: seq<string>): (n: nat)
    ensures n <= |here| && (n < |there| || n == 0)
    ensures here[..n] == if n <= |there| then there[..n] else []
  {
    if here == [] || |there| <= 1 || here[0] != there[0] then 0
    else
      var n := Shared(here[1..], there[1..]);
      assert here[..n + 1] == [here[0]] + here[1..][..n] && there[..n + 1] == [there[0]] + there[1..][..n];
      n + 1
  }

  /** No directory of the page below the ones it shares with the target is a dot segment. */
  predicate PlainBelow(from: string, to: string) {
    var here, there := Directory(from), SegmentsOf(to);
    DotFree(here[Shared(here, there)..])
  }

  function Repeat(s: string, n: nat): string {
    if n == 0 then "" else s + Repeat(s, n - 1)
  }

  lemma {:induction false} RepeatUps(n: nat, t: seq<string>)
    requires t != []
    ensures Repeat("../", n) + Join(t, '/') == Join(seq(n, _ => "..") + t, '/')
  {
    var ups := seq(n, _ => "..");
    if n == 0 {
      assert ups + t == t;
    } else {
      RepeatUps(n - 1, t);
      var rest := seq(n - 1, _ => "..") + t;
      assert ups + t == [".."] + rest;
      assert ([".."] + rest)[1..] == rest;
    }
  }

  /** A link up `ups` directories and down along `t`, as the method writes it. */
  function Link(ups: nat, t: seq<string>): string {
    var link := Repeat("../", ups) + Join(t, '/');
    if "../" <= link then link else "./" + link
  }

  /** The segments a link spells out. */
  function LinkSegments(ups: nat, t: seq<string>): seq<string> {
    if ups == 0 && !("../" <= Join(t, '/')) then ["."] + t else seq(ups, _ => "..") + t
  }

  lemma LinkIs(ups: nat, t: seq<string>)
    requires t != []
    ensures Link(ups, t) == Join(LinkSegments(ups, t), '/')
  {
    RepeatUps(ups, t);
    if ups > 0 {
      assert Repeat("../", ups) == "../" + Repeat("../", ups - 1);
      assert (Repeat("../", ups) + Join(t, '/'))[..3] == "../";
    } else {
      assert Repeat("../", 0) + Join(t, '/') == Join(t, '/');
      assert (["."] + t)[1..] == t;
    }
  }

  /** Going down along plain segments, up again, then along `t` is going down along `t`. */
  lemma DownAndUp(b: seq<string>, h: seq<string>, t: seq<string>, output: string)
    requires Segments(h) && DotFree(h)
    ensures Steps(b + h + (seq(|h|, _ => "..") + t), output) == Steps(b + t, output)
  {
    var ups := seq(|h|, _ => "..");
    var mid := Steps(b, output);
    assert b + h + (ups + t) == b + ((h + ups) + t);
    StepsAppend(b, (h + ups) + t, output);
    StepsAppend(h + ups, t, mid);
    StepsUndo(h, mid);
    StepsAppend(b, t, output);
  }

  lemma Stay(b: seq<string>, t: seq<string>, output: string)
    ensures Steps(b + (["."] + t), output) == Steps(b + t, output)
  {
    StepsAppend(b, ["."] + t, output);
    StepsAppend(b, t, output);
    assert (["."] + t)[1..] == t;
  }

  lemma LinkSteps(b: seq<string>, h: seq<string>, t: seq<string>, last: string, output: string)
    requires Segments(h) && DotFree(h)
    ensures var way := LinkSegments(|h|, t + [last]);
      && way != [] && way[|way| - 1] == last
      && Steps(b + h + way[..|way| - 1], output) == Steps(b + t, output)
  {
    var way := LinkSegments(|h|, t + [last]);
    if h == [] && !("../" <= Join(t + [last], '/')) {
      assert way[..|way| - 1] == ["."] + t && b + h == b;
      Stay(b, t, output);
    } else {
      assert way[..|way| - 1] == seq(|h|, _ => "..") + t;
      DownAndUp(b, h, t, output);
    }
  }

  lemma LinkPieces(ups: nat, t: seq<string>)
    requires Segments(t)
    ensures Segments(LinkSegments(ups, t))
  {
  }

  /** Resolved on a page below `b`, the link leads to `t` below `b`. */
  lemma LinkResolves(b: seq<string>, h: seq<string>, page: string, t: seq<string>, last: string)
    requires Segments(b) && Segments(h) && DotFree(h) && '/' !in page && Segments(t) && '/' !in last
    ensures RemoveDots(UpToLastSlash(Path(b + h + [page])) + Link(|h|, t + [last]), "")
         == RemoveDots(Path(b + t + [last]), "")
  {
    var way := LinkSegments(|h|, t + [last]);
    LinkIs(|h|, t + [last]);
    LinkSteps(b, h, t, last, "");
    LinkPieces(|h|, t + [last]);
    Merge(b + h, page, way);
    var init := way[..|way| - 1];
    assert b + h + way == (b + h + init) + [last];
    RemoveDotsSteps(b + h + init, last, "");
    RemoveDotsSteps(b + t, last, "");
  }

  lemma DirectoryIs(path: string)
    requires Absolute(path)
    ensures var segs := SegmentsOf(path); segs != [] && segs == Directory(path) + [segs[|segs| - 1]]
  {
    PathOf(path);
    var pieces := Split(path, '/');
    assert pieces[1..][..|pieces| - 2] == pieces[1..|pieces| - 1];
  }

  /** The link from one absolute path to another resolves under every prefix. */
  lemma PathsResolve(p: string, from: string, to: string)
    requires Prefix(p) && Absolute(from) && Absolute(to) && PlainBelow(from, to)
    ensures RemoveDots(UpToLastSlash(p + from) + LinkBetween(from, to), "") == RemoveDots(p + to, "")
  {
    PathOf(from);
    PathOf(to);
    DirectoryIs(from);
    var segs, here, there := SegmentsOf(from), Directory(from), SegmentsOf(to);
    PrefixSegments(p, segs);
    PrefixSegments(p, there);
    SegmentsResolve(SegmentsOf(p), here, segs[|segs| - 1], there, Shared(here, there), p + from, p + to);
  }

  lemma SegmentsResolve(base: seq<string>, here: seq<string>, page: string, there: seq<string>, n: nat,
                        from: string, to: string)
    requires from == Path(base + (here + [page])) && to == Path(base + there)
    requires Segments(base) && Segments(here) && '/' !in page && Segments(there)
    requires n <= |here| && n < |there| && here[..n] == there[..n] && DotFree(here[n..])
    ensures RemoveDots(UpToLastSlash(from) + Link(|here| - n, there[n..]), "") == RemoveDots(to, "")
  {
    var b, h, t, last := base + here[..n], here[n..], there[n..|there| - 1], there[|there| - 1];
    assert base + (here + [page]) == b + h + [page];
    assert base + there == b + t + [last];
    assert there[n..] == t + [last];
    LinkResolves(b, h, page, t, last);
  }

  /** The link the method computes. */
  function LinkBetween(from: string, to: string): string {
    var here, there := Directory(from), SegmentsOf(to);
    var n := Shared(here, there);
    Link(|here| - n, there[n..])
  }

  lemma LinkStart(ups: nat, t: seq<string>)
    ensures var s := Link(ups, t); s[0] == '.' && |s| >= 2 && ("./" <= s || "../" <= s)
  {
  }

  function WithQuery(link: string, query: string): string {
    if query == "" then link else link + "?" + query
  }

  lemma StartStays(s: string, more: string)
    ensures "./" <= s ==> "./" <= s + more
    ensures "../" <= s ==> "../" <= s + more
  {
  }

  lemma StartsRelative(from: string, to: string, query: string)
    ensures var url := WithQuery(LinkBetween(from, to), query); "./" <= url || "../" <= url
  {
    var here, there := Directory(from), SegmentsOf(to);
    var n := Shared(here, there);
    LinkStart(|here| - n, there[n..]);
    StartStays(LinkBetween(from, to), "?" + query);
  }

  /** On the page at `from`, with `p` in front of both paths, `url` leads to `to` and `query`. */
  predicate LeadsTo(url: string, p: string, from: string, to: string, query: string) {
    Resolve(p + from, url) == Ref(RemoveDots(p + to, ""), if query == "" then None else Some(query), None)
  }

  // ----- Which links lead to their target -----

  lemma {:induction false} UpsHave(n: nat, c: char)
    requires c != '.' && c != '/'
    ensures c !in Repeat("../", n)
  {
    if n > 0 {
      UpsHave(n - 1, c);
    }
  }

  /** A link has no special characters but those of the segments it goes down. */
  lemma LinkHas(ups: nat, t: seq<string>, c: char)
    requires c != '.' && c != '/'
    ensures c in Link(ups, t) <==> c in Join(t, '/')
  {
    UpsHave(ups, c);
    var link := Repeat("../", ups) + Join(t, '/');
    assert c in link <==> c in Join(t, '/');
    assert c in "./" + link <==> c in link;
  }

  lemma {:induction false} FirstOf(s: string, c: char) returns (head: string, tail: string)
    requires c in s
    ensures s == head + [c] + tail && c !in head
  {
    if s[0] == c {
      head, tail := "", s[1..];
    } else {
      var h, t := FirstOf(s[1..], c);
      head, tail := [s[0]] + h, t;
      assert s == [s[0]] + s[1..];
    }
  }

  lemma CutAt(head: string, c: char, tail: string)
    requires c !in head
    ensures Cut(head + [c] + tail, c) == (head, Some(tail))
  {
    SplitAppend(head, tail, c);
    JoinSplit(tail, c);
    assert ([head] + Split(tail, c))[1..] == Split(tail, c);
    assert (head + [c] + tail)[|head|] == c;
  }

  /** A link that holds a `?` itself is read with another query. */
  lemma EarlyQuery(link: string, query: string)
    requires '?' in link
    ensures Cut(WithQuery(link, query), '?').1 != if query == "" then None else Some(query)
  {
    var head, tail := FirstOf(link, '?');
    if query == "" {
      CutAt(head, '?', tail);
    } else {
      CutAt(head, '?', tail + "?" + query);
      assert WithQuery(link, query) == head + "?" + (tail + "?" + query);
    }
  }

  /** Path and query of a link are read back exactly if neither `?` nor `#` comes too early. */
  lemma ParsedBack(link: string, query: string)
    ensures var r := ParseRef(WithQuery(link, query));
            var q := if query == "" then None else Some(query);
            (r.query == q && r.fragment == None <==> '?' !in link && '#' !in link && '#' !in query)
            && (r.query == q && r.fragment == None ==> r.path == link)
  {
    var s := WithQuery(link, query);
    assert '#' in s <==> '#' in link || '#' in query;
    if '#' !in s {
      if '?' in link {
        EarlyQuery(link, query);
      } else if query != "" {
        CutAt(link, '?', query);
      }
    }
  }

  /** The link below the directories both paths share. */
  function Tail(from: string, to: string): string {
    var there := SegmentsOf(to);
    Join(there[Shared(Directory(from), there)..], '/')
  }

  /** Nothing in the target or the query reads as a query or a fragment of its own. */
  predicate Unmistaken(from: string, to: string, query: string) {
    '?' !in Tail(from, to) && '#' !in Tail(from, to) && '#' !in query
  }

  predicate SamePath(p: string, from: string, to: string) {
    RemoveDots(UpToLastSlash(p + from) + LinkBetween(from, to), "") == RemoveDots(p + to, "")
  }

  lemma ResolveParts(base: string, s: string)
    ensures Resolve(base, s).query == ParseRef(s).query && Resolve(base, s).fragment == ParseRef(s).fragment
    ensures var path := ParseRef(s).path;
            path != "" && path[0] == '.' ==> Resolve(base, s).path == RemoveDots(UpToLastSlash(base) + path, "")
  {
  }

  lemma LinkLeads(base: string, link: string, query: string, target: string)
    requires link != "" && link[0] == '.'
    ensures Resolve(base, WithQuery(link, query)) == Ref(target, if query == "" then None else Some(query), None)
            <==> '?' !in link && '#' !in link && '#' !in query && RemoveDots(UpToLastSlash(base) + link, "") == target
  {
    ParsedBack(link, query);
    ResolveParts(base, WithQuery(link, query));
  }

  /** Behind one prefix, the link leads to its target exactly if it is read back and resolves to the same path. */
  lemma LeadsToIff(p: string, from: string, to: string, query: string)
    requires Absolute(to)
    ensures LeadsTo(WithQuery(LinkBetween(from, to), query), p, from, to, query)
            <==> Unmistaken(from, to, query) && SamePath(p, from, to)
  {
    LinkBetweenHas(from, to, '?');
    LinkBetweenHas(from, to, '#');
    LinkLeads(p + from, LinkBetween(from, to), query, RemoveDots(p + to, ""));
  }

  lemma LinkBetweenHas(from: string, to: string, c: char)
    requires c != '.' && c != '/'
    ensures c in LinkBetween(from, to) <==> c in Tail(from, to)
    ensures LinkBetween(from, to) != "" && LinkBetween(from, to)[0] == '.'
  {
    var here, there := Directory(from), SegmentsOf(to);
    var n := Shared(here, there);
    LinkHas(|here| - n, there[n..], c);
    LinkStart(|here| - n, there[n..]);
  }

  // ----- Dot segments lead astray -----

  function Slashes(s: string): nat { if s == "" then 0 else (if s[|s| - 1] == '/' then 1 else 0) + Slashes(s[..|s| - 1]) }

  lemma {:induction false} SlashesAppend(s: string, t: string)
    ensures Slashes(s + t) == Slashes(s) + Slashes(t)
    decreases |t|
  {
    if t == "" {
      assert s + t == s;
    } else {
      SlashesAppend(s, t[..|t| - 1]);
      assert (s + t)[..|s + t| - 1] == s + t[..|t| - 1];
    }
  }

  lemma {:induction false} NoSlashes(s: string)
    requires '/' !in s
    ensures Slashes(s) == 0
  {
    if s != "" {
      NoSlashes(s[..|s| - 1]);
    }
  }

  lemma OneMoreSlash(s: string, seg: string)
    requires '/' !in seg
    ensures Slashes(s + "/" + seg) == Slashes(s) + 1
  {
    SlashesAppend(s + "/", seg);
    SlashesAppend(s, "/");
    NoSlashes(seg);
    assert "/"[..0] == "" && Slashes("/") == 1 + Slashes("");
  }

  lemma {:induction false} PopSlash(s: string)
    ensures Slashes(Pop(s)) == if Slashes(s) == 0 then 0 else Slashes(s) - 1
  {
    if s != "" && s[|s| - 1] != '/' {
      PopSlash(s[..|s| - 1]);
    }
  }

  /** By how much a walk along the segments changes the number of slashes, if it never runs out of them. */
  function Net(segs: seq<string>): int {
    if segs == [] then 0
    else (if segs[0] == "." then 0 else if segs[0] == ".." then -1 else 1) + Net(segs[1..])
  }

  lemma {:induction false} NetAppend(a: seq<string>, b: seq<string>)
    ensures Net(a + b) == Net(a) + Net(b)
  {
    if a == [] {
      assert a + b == b;
    } else {
      NetAppend(a[1..], b);
      assert (a + b)[1..] == a[1..] + b;
    }
  }

  lemma {:induction false} NetUps(n: nat)
    ensures Net(seq(n, _ => "..")) == 0 - n
  {
    if n > 0 {
      NetUps(n - 1);
      assert seq(n, _ => "..")[1..] == seq(n - 1, _ => "..");
    }
  }

  /** Dot segments keep the number of directories below the number of segments. */
  lemma {:induction false} NetShort(segs: seq<string>)
    ensures Net(segs) <= |segs| && (Net(segs) == |segs| <==> DotFree(segs))
  {
    if segs != [] {
      NetShort(segs[1..]);
      assert segs == [segs[0]] + segs[1..];
      assert DotFree(segs) <==> segs[0] != "." && segs[0] != ".." && DotFree(segs[1..]);
    }
  }

  lemma {:induction false} StepsSlashes(segs: seq<string>, output: string)
    requires Segments(segs) && Slashes(output) >= |segs|
    ensures Slashes(Steps(segs, output)) == Slashes(output) + Net(segs)
    decreases |segs|
  {
    if segs != [] {
      PopSlash(output);
      if segs[0] != "." && segs[0] != ".." {
        OneMoreSlash(output, segs[0]);
      }
      StepsSlashes(segs[1..], Step(segs[0], output));
    }
  }

  lemma LastSlashes(seg: string, output: string)
    requires '/' !in seg && Slashes(output) > 0
    ensures Slashes(Last(seg, output)) == Slashes(output) + if seg == ".." then 0 else 1
  {
    PopSlash(output);
    OneMoreSlash(output, seg);
    OneMoreSlash(output, "");
    OneMoreSlash(Pop(output), "");
    assert output + "/" + "" == output + "/" && Pop(output) + "/" + "" == Pop(output) + "/";
  }

  /** A prefix of `n` directories. */
  function Deep(n: nat): seq<string> { seq(n, _ => "x") }

  lemma {:induction false} DeepSlashes(n: nat, output: string)
    ensures Slashes(Steps(Deep(n), output)) == Slashes(output) + n
  {
    if n > 0 {
      OneMoreSlash(output, "x");
      assert Deep(n)[1..] == Deep(n - 1) && Deep(n)[0] == "x";
      DeepSlashes(n - 1, output + "/" + "x");
    }
  }

  /** Below a deep enough prefix, two walks with different numbers of directories end in different paths. */
  lemma DifferentDepths(n: nat, a: seq<string>, b: seq<string>, last: string)
    requires Segments(a) && Segments(b) && '/' !in last && n > |a| && n > |b| && Net(a) != Net(b)
    ensures RemoveDots(Path(Deep(n) + a + [last]), "") != RemoveDots(Path(Deep(n) + b + [last]), "")
  {
    DepthOf(n, a, last);
    DepthOf(n, b, last);
  }

  lemma DepthOf(n: nat, a: seq<string>, last: string)
    requires Segments(a) && '/' !in last && n > |a|
    ensures Slashes(RemoveDots(Path(Deep(n) + a + [last]), "")) == n + Net(a) + if last == ".." then 0 else 1
  {
    StepsDepth(n, a);
    WayDepth(Deep(n) + a, last);
  }

  lemma WayDepth(way: seq<string>, last: string)
    requires Segments(way) && '/' !in last && Slashes(Steps(way, "")) > 0
    ensures Slashes(RemoveDots(Path(way + [last]), "")) == Slashes(Steps(way, "")) + if last == ".." then 0 else 1
  {
    RemoveDotsSteps(way, last, "");
    LastSlashes(last, Steps(way, ""));
  }

  lemma StepsDepth(n: nat, a: seq<string>)
    requires Segments(a) && n > |a|
    ensures Segments(Deep(n) + a) && Slashes(Steps(Deep(n) + a, "")) == n + Net(a) > 0
  {
    var output := Steps(Deep(n), "");
    StepsAppend(Deep(n), a, "");
    DeepSlashes(n, "");
    StepsSlashes(a, output);
    NetLow(a);
  }

  lemma {:induction false} NetLow(segs: seq<string>)
    ensures Net(segs) >= -|segs|
  {
    if segs != [] {
      NetLow(segs[1..]);
    }
  }

  /** The prefix that shows a dot segment below the shared directories. */
  function DeepPrefix(from: string, to: string): string {
    Path(Deep(2 * |Directory(from)| + |SegmentsOf(to)| + 1))
  }

  lemma DeepPath(n: nat, path: string)
    requires n > 0 && Absolute(path)
    ensures Prefix(Path(Deep(n))) && Segments(SegmentsOf(path))
    ensures Path(Deep(n)) + path == Path(Deep(n) + SegmentsOf(path))
  {
    PathOf(path);
    PathSegments(Deep(n));
    PrefixSegments(Path(Deep(n)), SegmentsOf(path));
  }

  lemma DotBelowMisses(from: string, to: string)
    requires Absolute(from) && Absolute(to) && !PlainBelow(from, to)
    ensures Prefix(DeepPrefix(from, to)) && !SamePath(DeepPrefix(from, to), from, to)
  {
    var here, there := Directory(from), SegmentsOf(to);
    var n := 2 * |here| + |there| + 1;
    var page := PageOf(from);
    DeepPath(n, from);
    DeepPath(n, to);
    PathOf(to);
    SharedFits(here, there);
    MissedAt(DeepPrefix(from, to), n, from, to, here, page, there, Shared(here, there));
  }

  lemma SharedFits(here: seq<string>, there: seq<string>)
    requires there != []
    ensures var k := Shared(here, there); k <= |here| && k < |there| && here[..k] == there[..k]
  {
  }

  lemma MissedAt(p: string, n: nat, from: string, to: string, here: seq<string>, page: string, there: seq<string>, k: nat)
    requires Segments(here) && '/' !in page && Segments(there) && n > 2 * |here| + |there|
    requires k <= |here| && k < |there| && here[..k] == there[..k] && !DotFree(here[k..])
    requires LinkBetween(from, to) == Link(|here| - k, there[k..])
    requires p + from == Path(Deep(n) + (here + [page])) && p + to == Path(Deep(n) + there)
    ensures !SamePath(p, from, to)
  {
    DotBelowDiffers(n, here, page, there, k, p + from, p + to);
  }

  /** The last segment of a path, below its directory. */
  lemma PageOf(path: string) returns (page: string)
    requires Absolute(path)
    ensures SegmentsOf(path) == Directory(path) + [page] && Segments(Directory(path)) && '/' !in page
  {
    PathOf(path);
    DirectoryIs(path);
    var segs := SegmentsOf(path);
    page := segs[|segs| - 1];
    SegmentsInit(segs, Directory(path), page);
  }

  lemma SegmentsInit(segs: seq<string>, init: seq<string>, last: string)
    requires Segments(segs) && segs == init + [last]
    ensures Segments(init) && '/' !in last
  {
    assert segs[|init|] == last;
    assert forall i :: 0 <= i < |init| ==> segs[i] == init[i];
  }

  lemma SegmentsParts(here: seq<string>, k: nat, t: seq<string>, there: seq<string>)
    requires Segments(here) && Segments(there) && k < |there| && k <= |here| && t == there[k..|there| - 1]
    ensures Segments(here + seq(|here| - k, _ => "..") + t) && Segments(here[..k] + t)
    ensures '/' !in there[|there| - 1]
  {
  }

  lemma NetDiffers(here: seq<string>, k: nat, t: seq<string>)
    requires k <= |here| && !DotFree(here[k..])
    ensures Net(here + seq(|here| - k, _ => "..") + t) != Net(here[..k] + t)
  {
    var h := here[k..];
    var ups := seq(|h|, _ => "..");
    assert here == here[..k] + h;
    NetUps(|h|);
    NetAppend(here + ups, t);
    NetAppend(here, ups);
    NetAppend(here[..k], h);
    NetAppend(here[..k], t);
    NetShort(h);
  }

  /** The merged path of a link, segment by segment. */
  lemma MergedLink(base: seq<string>, here: seq<string>, page: string, ups: nat, t: seq<string>, last: string)
    requires '/' !in page && ups > 0
    ensures UpToLastSlash(Path(base + (here + [page]))) + Link(ups, t + [last])
         == Path(base + (here + seq(ups, _ => "..") + t) + [last])
  {
    var dots := seq(ups, _ => "..");
    LinkIs(ups, t + [last]);
    Merge(base + here, page, dots + (t + [last]));
    assert base + here + [page] == base + (here + [page]);
    assert base + here + (dots + (t + [last])) == base + (here + dots + t) + [last];
  }

  lemma DotBelowDiffers(n: nat, here: seq<string>, page: string, there: seq<string>, k: nat, from: string, to: string)
    requires Segments(here) && '/' !in page && Segments(there) && n > 2 * |here| + |there|
    requires k <= |here| && k < |there| && here[..k] == there[..k] && !DotFree(here[k..])
    requires from == Path(Deep(n) + (here + [page])) && to == Path(Deep(n) + there)
    ensures RemoveDots(UpToLastSlash(from) + Link(|here| - k, there[k..]), "") != RemoveDots(to, "")
  {
    var t, last := there[k..|there| - 1], there[|there| - 1];
    var a, b := here + seq(|here| - k, _ => "..") + t, here[..k] + t;
    assert there[k..] == t + [last];
    assert Deep(n) + there == Deep(n) + b + [last];
    MergedLink(Deep(n), here, page, |here| - k, t, last);
    NetDiffers(here, k, t);
    SegmentsParts(here, k, t, there);
    DifferentDepths(n, a, b, last);
  }

  // ----- The theorem -----

  /** Under every prefix the link, with its query, resolves to the target. */
  lemma Resolves(p: string, from: string, to: string, query: string)
    requires Prefix(p) && Absolute(from) && Absolute(to) && PlainBelow(from, to)
    ensures LeadsTo(WithQuery(LinkBetween(from, to), query), p, from, to, query) <==> Unmistaken(from, to, query)
  {
    PathsResolve(p, from, to);
    LeadsToIff(p, from, to, query);
  }

  /**
   * The link leads to its target under every prefix exactly when the page has no dot segment below the
   * directories it shares with the target, and nothing in target and query reads as a query or fragment.
   */
  lemma ResolvesIff(from: string, to: string, query: string)
    requires Absolute(from) && Absolute(to)
    ensures (forall p :: Prefix(p) ==> LeadsTo(WithQuery(LinkBetween(from, to), query), p, from, to, query))
            <==> PlainBelow(from, to) && Unmistaken(from, to, query)
  {
    if PlainBelow(from, to) {
      forall p | Prefix(p)
        ensures LeadsTo(WithQuery(LinkBetween(from, to), query), p, from, to, query) <==> Unmistaken(from, to, query)
      {
        Resolves(p, from, to, query);
      }
      assert Prefix("");
    } else {
      DotBelowMisses(from, to);
      LeadsToIff(DeepPrefix(from, to), from, to, query);
    }
  }

  /** With no dot segments in it, that target is the prefixed path itself. */
  lemma PlainTarget(p: string, to: string)
    requires Prefix(p) && Absolute(to) && DotFree(SegmentsOf(p) + SegmentsOf(to))
    ensures RemoveDots(p + to, "") == p + to
  {
    PathOf(to);
    SplitPieces(p, '/');
    var base, there := SegmentsOf(p), SegmentsOf(to);
    var init, last := there[..|there| - 1], there[|there| - 1];
    PrefixSegments(p, there);
    assert base + there == (base + init) + [last];
    RemoveDotsSteps(base + init, last, "");
    StepsPlain(base + init, last, "");
  }

  /** A dot segment in the page's own path can send the link elsewhere. */
  lemma DotSegmentGoesAstray(p: string, from: string, to: string)
    requires p == "/p" && from == "/./x" && to == "/y"
    ensures LinkBetween(from, to) == "../y" && !PlainBelow(from, to)
    ensures RemoveDots(UpToLastSlash(p + from) + "../y", "") == to
    ensures RemoveDots(p + to, "") == p + to
  {
    AstrayPieces(from, to);
    AstrayLink(from, to);
    assert UpToLastSlash(p + from) == "/p/./" by {
      UpToLastSlashIs("/p/.", "x");
      assert p + from == "/p/." + "/" + "x";
    }
    AstrayPath(["p", ".", ".."]);
    AstraySteps(p);
    RemoveDotsSteps(["p", ".", ".."], "y", "");
    PlainTo(p, to);
  }

  lemma PlainTo(p: string, to: string)
    requires p == "/p" && to == "/y"
    ensures RemoveDots(p + to, "") == p + to
  {
    assert p == Path(["p"]) && to == Path(["y"]);
    PathSegments(["p"]);
    PathSegments(["y"]);
    PlainTarget(p, to);
  }

  lemma PathSegments(segs: seq<string>)
    requires segs != [] && Segments(segs)
    ensures SegmentsOf(Path(segs)) == segs
  {
    SplitJoin(segs, '/');
    SplitAppend("", Join(segs, '/'), '/');
    assert "" + "/" + Join(segs, '/') == Path(segs);
  }

  lemma AstraySteps(p: string)
    requires p == "/p"
    ensures Steps(["p", ".", ".."], "") == ""
  {
    var way := ["p", ".", ".."];
    assert way[1..] == [".", ".."] && [".", ".."][1..] == [".."] && [".."][1..] == [];
    PopSegment("", "p");
    assert "" + "/" + "p" == p;
    assert Steps(way, "") == Steps([".", ".."], p) == Steps([".."], p) == Steps([], "") == "";
  }

  lemma AstrayPath(way: seq<string>)
    requires way == ["p", ".", ".."]
    ensures Path(way + ["y"]) == "/p/./" + "../y"
  {
    JoinAppend(["p"], [".", "..", "y"]);
    JoinAppend(["."], ["..", "y"]);
    JoinAppend([".."], ["y"]);
    assert way + ["y"] == ["p"] + [".", "..", "y"] && [".", "..", "y"] == ["."] + ["..", "y"] && ["..", "y"] == [".."] + ["y"];
  }

  lemma AstrayPieces(from: string, to: string)
    requires from == "/./x" && to == "/y"
    ensures Directory(from) == ["."] && SegmentsOf(to) == ["y"]
  {
    PathSegments([".", "x"]);
    PathSegments(["y"]);
    assert Join([".", "x"], '/') == "./x" && Path([".", "x"]) == from && Path(["y"]) == to;
    DirectoryIs(from);
  }

  lemma AstrayLink(from: string, to: string)
    requires Directory(from) == ["."] && SegmentsOf(to) == ["y"]
    ensures LinkBetween(from, to) == "../y" && !PlainBelow(from, to)
  {
    assert Repeat("../", 1) == "../" + Repeat("../", 0);
    assert ["."][0..][0] == ".";
  }

  /** `relative_url`: `to` (and `query`) as a URL relative to the page at `from`. */
  method RelativeUrl(from: string, to: string, query: string) returns (url: string)
    ensures "./" <= url || "../" <= url
    ensures url == WithQuery(LinkBetween(from, to), query)
    ensures Absolute(from) && Absolute(to) ==>
              ((forall p :: Prefix(p) ==> LeadsTo(url, p, from, to, query))
               <==> PlainBelow(from, to) && Unmistaken(from, to, query))
  {
    var here, there := Directory(from), SegmentsOf(to);
    var common := CountShared(here, there);
    url := Repeat("../", |here| - common) + Join(there[common..], '/');
    if !("../" <= url) {
      url := "./" + url;
    }
    assert url == LinkBetween(from, to);
    if query != "" {
      url := url + "?" + query;
    }
    StartsRelative(from, to, query);
    if Absolute(from) && Absolute(to) {
      ResolvesIff(from, to, query);
    }
  }

  /** Directories both share (never the target's last segment, which may be a file). */
  method CountShared(here: seq<string>, there: seq<string>) returns (common: nat)
    ensures common == Shared(here, there)
  {
    common := 0;
    while common < |here| && common < |there| - 1 && here[common] == there[common]
      invariant 0 <= common <= |here| && (common < |there| || common == 0)
      invariant Shared(here, there) == common + Shared(here[common..], there[common..])
    {
      common := common + 1;
    }
  }
}
