/** Parsing and rendering of paths in `plugins/inputs/cisco_telemetry_gnmi/cisco_telemetry_gnmi.go`. */
module GnmiPath {
  import opened Options

  /** A path element: its name and its key predicates. */
  datatype Elem = Elem(name: string, keys: map<string, string>)

  datatype Result = Ok(elems: seq<Elem>) | Err

  /**
    Where the parser is in an element: in its name, behind its key predicates, in the key or
    in the value of a predicate. `Stopped` is the parser after it broke off, `bad` if that
    was inside a predicate.
  */
  datatype Place =
    | Naming(name: string)
    | Closed(name: string, keys: map<string, string>)
    | Keying(name: string, keys: map<string, string>, key: string)
    | Valuing(name: string, keys: map<string, string>, key: string, value: string)
    | Stopped(bad: bool)

  datatype Parser = Parser(elems: seq<Elem>, place: Place)

  predicate Quote(c: char) {
    c == '\'' || c == '"'
  }

  function TrimLeft(s: string): string {
    if s != "" && Quote(s[0]) then TrimLeft(s[1..]) else s
  }

  function TrimRight(s: string): string {
    if s != "" && Quote(s[|s| - 1]) then TrimRight(s[..|s| - 1]) else s
  }

  /** `strings.Trim(s, "'\"")` */
  function Trim(s: string): string {
    TrimRight(TrimLeft(s))
  }

  lemma {:induction false} TrimLeftIs(s: string) returns (i: nat)
    ensures i <= |s| && TrimLeft(s) == s[i..]
    ensures (forall k :: 0 <= k < i ==> s[k] in "'\"") && (i < |s| ==> s[i] !in "'\"")
  {
    i := 0;
    if s != "" && Quote(s[0]) {
      var j := TrimLeftIs(s[1..]);
      i := j + 1;
      assert forall k :: 0 < k < i ==> s[k] == s[1..][k - 1];
    }
  }

  lemma {:induction false} TrimRightIs(s: string) returns (j: nat)
    ensures j <= |s| && TrimRight(s) == s[..j]
    ensures (forall k :: j <= k < |s| ==> s[k] in "'\"") && (0 < j ==> s[j - 1] !in "'\"")
  {
    j := |s|;
    if s != "" && Quote(s[|s| - 1]) {
      j := TrimRightIs(s[..|s| - 1]);
    }
  }

  /** Trimming takes off all single and double quotation marks at both ends, and nothing else. */
  lemma TrimIs(s: string) returns (i: nat, j: nat)
    ensures i <= j <= |s| && Trim(s) == s[i..j]
    ensures (forall k :: 0 <= k < i ==> s[k] in "'\"") && (forall k :: j <= k < |s| ==> s[k] in "'\"")
    ensures i < j ==> s[i] !in "'\"" && s[j - 1] !in "'\""
  {
    i := TrimLeftIs(s);
    var rest := s[i..];
    var n := TrimRightIs(rest);
    j := i + n;
    assert rest[..n] == s[i..j];
    assert forall k :: j <= k < |s| ==> s[k] == rest[k - i];
    assert 0 < n ==> rest[n - 1] == s[j - 1];
  }

  /** Elements without a name are skipped. */
  function Append(elems: seq<Elem>, name: string, keys: map<string, string>): seq<Elem> {
    if name == "" then elems else elems + [Elem(name, keys)]
  }

  /** The parser after one more character. */
  function Next(p: Parser, c: char): Parser {
    match p.place
    case Naming(n) =>
      if c == '[' then p.(place := Keying(n, map[], ""))
      else if c == '=' || c == ']' then p.(place := Stopped(false))
      else if c == '/' then Parser(Append(p.elems, n, map[]), Naming(""))
      else p.(place := Naming(n + [c]))
    case Closed(n, keys) =>
      if c == '[' then p.(place := Keying(n, keys, ""))
      else if c == '=' || c == ']' then p.(place := Stopped(false))
      else if c == '/' then Parser(Append(p.elems, n, keys), Naming(""))
      else p
    case Keying(n, keys, k) =>
      if c == '[' || c == ']' then p.(place := Stopped(true))
      else if c == '=' then p.(place := Valuing(n, keys, k, ""))
      else p.(place := Keying(n, keys, k + [c]))
    case Valuing(n, keys, k, v) =>
      if c == '[' || c == '=' then p.(place := Stopped(true))
      else if c == ']' then p.(place := Closed(n, keys[k := Trim(v)]))
      else p.(place := Valuing(n, keys, k, v + [c]))
    case Stopped(_) => p
  }

  function Feed(p: Parser, text: string): Parser {
    if text == "" then p else Next(Feed(p, text[..|text| - 1]), text[|text| - 1])
  }

  const Fresh := Parser([], Naming(""))

  function Finish(p: Parser): Result {
    match p.place
    case Stopped(bad) => if bad then Err else Ok(p.elems)
    case Keying(_, _, _) => Err
    case Valuing(_, _, _, _) => Err
    case _ => Ok(p.elems)
  }

  /** What `parsePath` returns for a path. */
  function Parsed(path: string): Result {
    if path != "" && path[0] != '/' then Err else Finish(Feed(Fresh, path + "/"))
  }

  // ---------- the index loop ----------

  /** The place that the loop's indexes stand for, before character `i`. */
  function PlaceAt(path: string, start: int, name: int, value: int, end: int, keys: map<string, string>, i: int): Place
    requires 0 <= start <= i <= |path| && -1 <= end && (0 <= end ==> start <= end <= i)
    requires -1 <= name && (0 <= name ==> 0 <= end < name <= i)
    requires -1 <= value && (0 <= value ==> 0 <= name < value <= i)
  {
    if name < 0 then
      if end < 0 then Naming(path[start..i]) else Closed(path[start..end], keys)
    else if value < 0 then Keying(path[start..end], keys, path[name..i])
    else Valuing(path[start..end], keys, path[name..value - 1], path[value..i])
  }

  lemma FeedStep(text: string, i: nat)
    requires i < |text|
    ensures Feed(Fresh, text[..i + 1]) == Next(Feed(Fresh, text[..i]), text[i])
  {
    assert text[..i + 1][..i] == text[..i];
  }

  lemma FeedNothing(text: string)
    ensures text[..0] == "" && Feed(Fresh, text[..0]) == Fresh
  {
  }

  lemma {:induction false} StaysStopped(text: string, i: nat, j: nat)
    requires i <= j <= |text| && Feed(Fresh, text[..i]).place.Stopped?
    ensures Feed(Fresh, text[..j]) == Feed(Fresh, text[..i])
    decreases j - i
  {
    if i < j {
      StaysStopped(text, i, j - 1);
      FeedStep(text, j - 1);
    }
  }

  lemma Longer(text: string, a: nat, i: nat)
    requires a <= i < |text|
    ensures text[a..i + 1] == text[a..i] + [text[i]]
    ensures text[i + 1..i + 1] == ""
  {
  }

  /** Parse a path, character by character, from four indexes into its text. */
  method ParsePath(path: string) returns (r: Result)
    ensures r == Parsed(path)
  {
    hide Trim, Feed;
    if |path| > 0 && path[0] != '/' {
      return Err;
    }
    var text := path + "/";
    var elems: seq<Elem> := [];
    var keys: map<string, string> := map[];
    var start, name, value, end := 0, -1, -1, -1;
    var i := 0;
    FeedNothing(text);
    while i < |text|
      invariant 0 <= start <= i <= |text| && -1 <= end && (0 <= end ==> start <= end <= i)
      invariant -1 <= name && (0 <= name ==> 0 <= end < name <= i)
      invariant -1 <= value && (0 <= value ==> 0 <= name < value <= i)
      invariant end < 0 ==> keys == map[]
      invariant Feed(Fresh, text[..i]) == Parser(elems, PlaceAt(text, start, name, value, end, keys, i))
    {
      FeedStep(text, i);
      Longer(text, start, i);
      if name >= 0 {
        Longer(text, name, i);
      }
      if value >= 0 {
        Longer(text, value, i);
      }
      if text[i] == '[' {
        if name >= 0 {
          break;
        }
        if end < 0 {
          end := i;
          keys := map[];
        }
        name := i + 1;
      } else if text[i] == '=' {
        if name <= 0 || value >= 0 {
          break;
        }
        value := i + 1;
      } else if text[i] == ']' {
        if name <= 0 || value <= name {
          break;
        }
        keys := keys[text[name..value - 1] := Trim(text[value..i])];
        name, value := -1, -1;
      } else if text[i] == '/' {
        if name < 0 {
          if end < 0 {
            end := i;
          }
          if end > start {
            elems := elems + [Elem(text[start..end], keys)];
          }
          start, name, value, end := i + 1, -1, -1, -1;
          keys := map[];
        }
      }
      i := i + 1;
    }
    if i < |text| {
      FeedStep(text, i);
      StaysStopped(text, i + 1, |text|);
    }
    assert text[..|text|] == text;
    if name >= 0 || value >= 0 {
      return Err;
    }
    return Ok(elems);
  }

  // ---------- the text of a path ----------

  /** A key predicate as written, with its value between optional quotes. */
  datatype Pred = Pred(key: string, value: string, quote: string)

  /** An element as written. */
  datatype Source = Source(name: string, preds: seq<Pred>)

  function PredText(p: Pred): string {
    "[" + p.key + "=" + (p.quote + p.value + p.quote) + "]"
  }

  function PredsText(ps: seq<Pred>): string {
    if ps == [] then "" else PredsText(ps[..|ps| - 1]) + PredText(ps[|ps| - 1])
  }

  function PathText(es: seq<Source>): string {
    if es == [] then ""
    else PathText(es[..|es| - 1]) + ("/" + (es[|es| - 1].name + PredsText(es[|es| - 1].preds)))
  }

  /** The keys of an element; a key written twice keeps its last value. */
  function KeysOf(ps: seq<Pred>): map<string, string> {
    if ps == [] then map[] else KeysOf(ps[..|ps| - 1])[ps[|ps| - 1].key := ps[|ps| - 1].value]
  }

  function Elems(es: seq<Source>): seq<Elem> {
    if es == [] then [] else Elems(es[..|es| - 1]) + [Elem(es[|es| - 1].name, KeysOf(es[|es| - 1].preds))]
  }

  predicate Bracket(c: char) {
    c == '[' || c == ']' || c == '='
  }

  /** Keys and values may hold any character but brackets and the equals sign, slashes included. */
  ghost predicate InnerText(s: string) {
    forall i :: 0 <= i < |s| ==> !Bracket(s[i])
  }

  ghost predicate NameText(s: string) {
    forall i :: 0 <= i < |s| ==> !Bracket(s[i]) && s[i] != '/'
  }

  ghost predicate PredOk(p: Pred) {
    && InnerText(p.key) && InnerText(p.value)
    && (p.value != "" ==> !Quote(p.value[0]) && !Quote(p.value[|p.value| - 1]))
    && forall i :: 0 <= i < |p.quote| ==> Quote(p.quote[i])
  }

  ghost predicate SourceOk(e: Source) {
    e.name != "" && NameText(e.name) && forall i :: 0 <= i < |e.preds| ==> PredOk(e.preds[i])
  }

  lemma {:induction false} FeedAppend(p: Parser, a: string, b: string)
    ensures Feed(p, a + b) == Feed(Feed(p, a), b)
  {
    if b == "" {
      assert a + b == a;
    } else {
      assert (a + b)[..|a + b| - 1] == a + b[..|b| - 1];
      FeedAppend(p, a, b[..|b| - 1]);
    }
  }

  lemma FeedOne(p: Parser, c: char)
    ensures Feed(p, [c]) == Next(p, c)
  {
    assert [c][..0] == "";
  }

  lemma {:induction false} FeedName(elems: seq<Elem>, n: string, text: string)
    requires NameText(text)
    ensures Feed(Parser(elems, Naming(n)), text) == Parser(elems, Naming(n + text))
  {
    if text == "" {
      assert n + text == n;
    } else {
      FeedName(elems, n, text[..|text| - 1]);
      assert n + text == n + text[..|text| - 1] + [text[|text| - 1]];
    }
  }

  lemma {:induction false} FeedKey(elems: seq<Elem>, n: string, keys: map<string, string>, text: string)
    requires InnerText(text)
    ensures Feed(Parser(elems, Keying(n, keys, "")), text) == Parser(elems, Keying(n, keys, text))
  {
    hide Trim, Append;
    if text != "" {
      FeedKey(elems, n, keys, text[..|text| - 1]);
      assert text == text[..|text| - 1] + [text[|text| - 1]];
    }
  }

  lemma {:induction false} FeedValue(elems: seq<Elem>, n: string, keys: map<string, string>, k: string, text: string)
    requires InnerText(text)
    ensures Feed(Parser(elems, Valuing(n, keys, k, "")), text) == Parser(elems, Valuing(n, keys, k, text))
  {
    hide Trim, Append;
    if text != "" {
      FeedValue(elems, n, keys, k, text[..|text| - 1]);
      assert text == text[..|text| - 1] + [text[|text| - 1]];
    }
  }

  lemma {:induction false} TrimLeftQuotes(q: string, v: string)
    requires (forall i :: 0 <= i < |q| ==> Quote(q[i])) && (v != "" ==> !Quote(v[0]))
    ensures TrimLeft(q + v) == v
  {
    if q == "" {
      assert q + v == v;
    } else {
      assert (q + v)[1..] == q[1..] + v;
      TrimLeftQuotes(q[1..], v);
    }
  }

  lemma {:induction false} TrimRightQuotes(v: string, q: string)
    requires (forall i :: 0 <= i < |q| ==> Quote(q[i])) && (v != "" ==> !Quote(v[|v| - 1]))
    ensures TrimRight(v + q) == v
  {
    if q == "" {
      assert v + q == v;
    } else {
      assert (v + q)[..|v + q| - 1] == v + q[..|q| - 1];
      TrimRightQuotes(v, q[..|q| - 1]);
    }
  }

  /** Trimming takes off the quotes around a value, and nothing else. */
  lemma TrimQuoted(p: Pred)
    requires PredOk(p)
    ensures Trim(p.quote + p.value + p.quote) == p.value
  {
    if p.value == "" {
      assert p.quote + p.value + p.quote == (p.quote + p.quote) + "";
      TrimLeftQuotes(p.quote + p.quote, "");
    } else {
      assert p.quote + p.value + p.quote == p.quote + (p.value + p.quote);
      TrimLeftQuotes(p.quote, p.value + p.quote);
      TrimRightQuotes(p.value, p.quote);
    }
  }

  /** A predicate, from its opening to its closing bracket. */
  lemma FeedPred(p: Parser, n: string, keys: map<string, string>, pred: Pred)
    requires PredOk(pred)
    requires p.place == Closed(n, keys) || (p.place == Naming(n) && keys == map[])
    ensures Feed(p, PredText(pred)) == Parser(p.elems, Closed(n, keys[pred.key := pred.value]))
  {
    hide Feed, Trim;
    var quoted := pred.quote + pred.value + pred.quote;
    assert InnerText(quoted);
    var p1 := Parser(p.elems, Keying(n, keys, ""));
    FeedOne(p, '[');
    FeedAppend(p, "[", pred.key);
    FeedKey(p.elems, n, keys, pred.key);
    FeedAppend(p, "[" + pred.key, "=");
    FeedOne(Parser(p.elems, Keying(n, keys, pred.key)), '=');
    FeedAppend(p, "[" + pred.key + "=", quoted);
    FeedValue(p.elems, n, keys, pred.key, quoted);
    FeedAppend(p, "[" + pred.key + "=" + quoted, "]");
    FeedOne(Parser(p.elems, Valuing(n, keys, pred.key, quoted)), ']');
    TrimQuoted(pred);
  }

  lemma {:induction false} FeedPreds(elems: seq<Elem>, n: string, ps: seq<Pred>)
    requires forall i :: 0 <= i < |ps| ==> PredOk(ps[i])
    ensures Feed(Parser(elems, Naming(n)), PredsText(ps)) ==
      Parser(elems, if ps == [] then Naming(n) else Closed(n, KeysOf(ps)))
  {
    hide PredText, PredOk;
    if ps != [] {
      var init, last := ps[..|ps| - 1], ps[|ps| - 1];
      FeedPreds(elems, n, init);
      FeedAppend(Parser(elems, Naming(n)), PredsText(init), PredText(last));
      FeedPred(Feed(Parser(elems, Naming(n)), PredsText(init)), n, KeysOf(init), last);
    }
  }

  /** The text of whole elements and the slash behind them, from the end of an element on. */
  lemma {:induction false} FeedPath(p: Parser, done: seq<Elem>, es: seq<Source>)
    requires forall i :: 0 <= i < |es| ==> SourceOk(es[i])
    requires Next(p, '/') == Parser(done, Naming(""))
    ensures Feed(p, PathText(es) + "/") == Parser(done + Elems(es), Naming(""))
  {
    hide PredsText, Feed, NameText;
    if es == [] {
      assert "" + "/" == "/" && done + [] == done;
      FeedOne(p, '/');
    } else {
      var init, e := es[..|es| - 1], es[|es| - 1];
      FeedPath(p, done, init);
      var before := PathText(init) + "/";
      var elems := done + Elems(init);
      assert PathText(es) + "/" == before + e.name + PredsText(e.preds) + "/";
      FeedAppend(p, before, e.name);
      FeedName(elems, "", e.name);
      assert "" + e.name == e.name;
      FeedAppend(p, before + e.name, PredsText(e.preds));
      FeedPreds(elems, e.name, e.preds);
      FeedAppend(p, before + e.name + PredsText(e.preds), "/");
      FeedOne(Feed(p, before + e.name + PredsText(e.preds)), '/');
      assert e.preds == [] ==> KeysOf(e.preds) == map[];
      assert done + Elems(es) == elems + [Elem(e.name, KeysOf(e.preds))];
    }
  }

  lemma FeedFresh(es: seq<Source>)
    requires forall i :: 0 <= i < |es| ==> SourceOk(es[i])
    ensures Feed(Fresh, PathText(es) + "/") == Parser(Elems(es), Naming(""))
  {
    FeedPath(Fresh, [], es);
    assert [] + Elems(es) == Elems(es);
  }

  /** Parsing the text of a path gives its elements back: names, keys and values. */
  lemma ParseRoundTrip(es: seq<Source>)
    requires forall i :: 0 <= i < |es| ==> SourceOk(es[i])
    ensures Parsed(PathText(es)) == Ok(Elems(es))
  {
    FeedFresh(es);
    PathStarts(es);
  }

  lemma {:induction false} PathStarts(es: seq<Source>)
    ensures if es == [] then PathText(es) == "" else PathText(es) != "" && PathText(es)[0] == '/'
  {
    if es != [] {
      PathStarts(es[..|es| - 1]);
    }
  }

  // ---------- texts that are not written that way ----------

  /** The brackets and equals signs of a text, in order. */
  function Marks(text: string): string {
    if text == "" then ""
    else
      var c := text[|text| - 1];
      Marks(text[..|text| - 1]) + if Bracket(c) then [c] else ""
  }

  /** The mark that belongs at an index: predicates are an opening bracket, an equals sign and a closing bracket. */
  function Due(i: nat): char {
    if i % 3 == 0 then '[' else if i % 3 == 1 then '=' else ']'
  }

  /** The index of the first mark that is out of place, or the number of marks. */
  function InPlace(marks: string): (k: nat)
    ensures k <= |marks|
  {
    if marks == "" then 0
    else
      var k := InPlace(marks[..|marks| - 1]);
      if k == |marks| - 1 && marks[k] == Due(k) then k + 1 else k
  }

  /** Every mark is in place; then the text is in a predicate or not, as their number says. */
  predicate Regular(marks: string) {
    InPlace(marks) == |marks|
  }

  /** The first mark that is out of place stands outside a predicate. */
  predicate Stray(marks: string) {
    InPlace(marks) < |marks| && InPlace(marks) % 3 == 0
  }

  lemma {:induction false} InPlaceIs(marks: string)
    ensures forall i :: 0 <= i < InPlace(marks) ==> marks[i] == Due(i)
    ensures InPlace(marks) < |marks| ==> marks[InPlace(marks)] != Due(InPlace(marks))
  {
    if marks != "" {
      InPlaceIs(marks[..|marks| - 1]);
    }
  }

  /** Where marks leave the parser. */
  ghost predicate PlaceFits(place: Place, marks: string) {
    var k := InPlace(marks);
    if k < |marks| then place == Stopped(k % 3 != 0)
    else if k % 3 == 0 then place.Naming? || place.Closed?
    else if k % 3 == 1 then place.Keying?
    else place.Valuing?
  }

  lemma {:induction false} MarksDecide(text: string)
    ensures PlaceFits(Feed(Fresh, text).place, Marks(text))
  {
    hide Trim, Append;
    if text != "" {
      var init, c := text[..|text| - 1], text[|text| - 1];
      MarksDecide(init);
      var marks := Marks(init);
      if Bracket(c) {
        assert (marks + [c])[..|marks + [c]| - 1] == marks;
      } else {
        assert marks + "" == marks;
      }
    }
  }

  /**
    What becomes of a path is decided by its first character and its marks. It is parsed if and
    only if it is empty or starts with a slash, and its marks are all in place with the last
    predicate closed, or the first one out of place stands outside a predicate. In the second
    case the parse breaks off there without an error.
  */
  lemma ParsedExactly(path: string)
    ensures Feed(Fresh, path + "/").place == Stopped(false) <==> Stray(Marks(path))
    ensures Parsed(path).Ok? <==>
      (path == "" || path[0] == '/') && (Stray(Marks(path)) || (Regular(Marks(path)) && |Marks(path)| % 3 == 0))
  {
    hide Feed;
    var text := path + "/";
    assert text[..|text| - 1] == path;
    assert Marks(text) == Marks(path) + "" == Marks(path);
    MarksDecide(text);
  }

  lemma {:induction false} FeedStopped(p: Parser, text: string)
    requires p.place.Stopped?
    ensures Feed(p, text) == p
  {
    if text != "" {
      FeedStopped(p, text[..|text| - 1]);
    }
  }

  /**
    A stray ']' or '=', in a name or behind the predicates of an element, ends the parse
    without an error: the element it stands in and all the text behind it are dropped.
  */
  lemma StrayTruncates(es: seq<Source>, name: string, ps: seq<Pred>, c: char, rest: string)
    requires (forall i :: 0 <= i < |es| ==> SourceOk(es[i])) && NameText(name) && (c == ']' || c == '=')
    requires forall i :: 0 <= i < |ps| ==> PredOk(ps[i])
    ensures Parsed(PathText(es) + "/" + name + PredsText(ps) + [c] + rest) == Ok(Elems(es))
  {
    hide Feed, PathText, Elems, SourceOk, NameText, PredsText, PredOk;
    var named := PathText(es) + "/" + name;
    var before := named + PredsText(ps);
    var text := before + [c];
    FeedFresh(es);
    FeedAppend(Fresh, PathText(es) + "/", name);
    FeedName(Elems(es), "", name);
    FeedAppend(Fresh, named, PredsText(ps));
    FeedPreds(Elems(es), "" + name, ps);
    FeedAppend(Fresh, before, [c]);
    FeedOne(Feed(Fresh, before), c);
    assert Feed(Fresh, text) == Parser(Elems(es), Stopped(false));
    assert text + rest + "/" == text + (rest + "/");
    FeedAppend(Fresh, text, rest + "/");
    FeedStopped(Feed(Fresh, text), rest + "/");
    PathStarts(es);
    assert (text + rest)[0] == '/';
  }

  /** Text between the last predicate of an element and the next slash is dropped, too, and the rest is read. */
  lemma TextBehindPredicatesDropped(es: seq<Source>, e: Source, text: string, more: seq<Source>)
    requires (forall i :: 0 <= i < |es| ==> SourceOk(es[i])) && (forall i :: 0 <= i < |more| ==> SourceOk(more[i]))
    requires SourceOk(e) && e.preds != [] && NameText(text)
    ensures Parsed(PathText(es) + "/" + e.name + PredsText(e.preds) + text + PathText(more))
      == Ok(Elems(es) + [Elem(e.name, KeysOf(e.preds))] + Elems(more))
  {
    hide Feed, PathText, Elems, NameText, PredsText, PredOk, KeysOf;
    var named := PathText(es) + "/" + e.name;
    var before := named + PredsText(e.preds);
    FeedFresh(es);
    FeedAppend(Fresh, PathText(es) + "/", e.name);
    FeedName(Elems(es), "", e.name);
    assert "" + e.name == e.name;
    FeedAppend(Fresh, named, PredsText(e.preds));
    FeedPreds(Elems(es), e.name, e.preds);
    FeedAppend(Fresh, before, text);
    FeedBehind(Feed(Fresh, before), text);
    var p := Feed(Fresh, before + text);
    FeedPath(p, Elems(es) + [Elem(e.name, KeysOf(e.preds))], more);
    FeedAppend(Fresh, before + text, PathText(more) + "/");
    var path := before + text + PathText(more);
    assert path + "/" == before + text + (PathText(more) + "/");
    PathStarts(es);
    assert path[0] == '/';
  }

  /** The parser ignores a character: it stands behind the predicates of an element, and before the next slash. */
  predicate Ignores(p: Parser, c: char) {
    p.place.Closed? && !Bracket(c) && c != '/'
  }

  /** A character that is ignored might as well not be there. */
  lemma IgnoredIsNothing(before: string, c: char, after: string)
    requires Ignores(Feed(Fresh, before), c)
    ensures Parsed(before + [c] + after) == Parsed(before + after)
  {
    hide Feed;
    assert before != "" by { FeedNothing(before); }
    FeedAppend(Fresh, before, [c]);
    FeedOne(Feed(Fresh, before), c);
    FeedAppend(Fresh, before + [c], after + "/");
    FeedAppend(Fresh, before, after + "/");
    assert before + [c] + after + "/" == before + [c] + (after + "/");
    assert before + after + "/" == before + (after + "/");
  }

  /** While marks are in place, the parser has not stopped. */
  lemma {:induction false} RegularBefore(path: string, i: nat)
    requires i <= |path| && Regular(Marks(path))
    ensures Regular(Marks(path[..i])) && !Feed(Fresh, path[..i]).place.Stopped?
    decreases |path| - i
  {
    hide Feed;
    if i == |path| {
      assert path[..i] == path;
    } else {
      RegularBefore(path, i + 1);
      var more := path[..i + 1];
      assert more[..|more| - 1] == path[..i];
      MarksShorter(Marks(path[..i]), path[i]);
      assert Marks(path[..i]) + "" == Marks(path[..i]);
    }
    MarksDecide(path[..i]);
  }

  lemma MarksShorter(marks: string, c: char)
    ensures Regular(marks + [c]) ==> Regular(marks)
  {
    assert (marks + [c])[..|marks + [c]| - 1] == marks;
  }

  /** Behind predicates there is a closing bracket, and from there on nothing but ignored characters. */
  lemma {:induction false} ClosedSince(path: string, i: nat) returns (j: nat)
    requires i <= |path| && Feed(Fresh, path[..i]).place.Closed?
    ensures j < i && path[j] == ']' && forall k :: j < k < i ==> Ignores(Feed(Fresh, path[..k]), path[k])
  {
    hide Feed, Next, Ignores;
    if i == 0 {
      FeedNothing(path);
    } else {
      FeedStep(path, i - 1);
      ClosedBy(Feed(Fresh, path[..i - 1]), path[i - 1]);
      if path[i - 1] == ']' {
        j := i - 1;
      } else {
        j := ClosedSince(path, i - 1);
      }
    }
  }

  lemma ClosedBy(p: Parser, c: char)
    requires Next(p, c).place.Closed?
    ensures c == ']' || (Ignores(p, c) && p.place.Closed?)
  {
  }

  predicate IgnoredAt(path: string, i: nat) {
    i < |path| && Ignores(Feed(Fresh, path[..i]), path[i])
  }

  /** A character that is neither a slash nor a mark directly follows a closing bracket. */
  predicate LooseAt(path: string, i: nat) {
    0 < i < |path| && path[i - 1] == ']' && !Bracket(path[i]) && path[i] != '/'
  }

  lemma IgnoredFromLoose(path: string, i: nat) returns (j: nat)
    requires IgnoredAt(path, i)
    ensures LooseAt(path, j)
  {
    hide Feed;
    var k := ClosedSince(path, i);
    j := k + 1;
  }

  lemma LooseIsIgnored(path: string, i: nat)
    requires Regular(Marks(path)) && LooseAt(path, i)
    ensures IgnoredAt(path, i)
  {
    hide Feed, Trim, Append, Regular, Marks;
    RegularBefore(path, i);
    FeedStep(path, i - 1);
  }

  /**
    The exact condition, for a path whose marks are in place: characters are ignored behind
    predicates if and only if some closing bracket is directly followed by a character that is
    neither a slash nor a mark.
  */
  lemma IgnoredExactly(path: string)
    requires Regular(Marks(path))
    ensures (exists i :: IgnoredAt(path, i)) <==> exists i :: LooseAt(path, i)
  {
    hide IgnoredAt, LooseAt;
    if i :| IgnoredAt(path, i) {
      var j := IgnoredFromLoose(path, i);
    }
    if i :| LooseAt(path, i) {
      LooseIsIgnored(path, i);
    }
  }

  /** An element without a name is dropped with its predicates, and the rest is read. */
  lemma NamelessDropped(es: seq<Source>, ps: seq<Pred>, more: seq<Source>)
    requires (forall i :: 0 <= i < |es| ==> SourceOk(es[i])) && (forall i :: 0 <= i < |more| ==> SourceOk(more[i]))
    requires forall i :: 0 <= i < |ps| ==> PredOk(ps[i])
    ensures Parsed(PathText(es) + "/" + PredsText(ps) + PathText(more)) == Ok(Elems(es) + Elems(more))
  {
    hide Feed, PathText, Elems, NameText, PredsText, PredOk, KeysOf;
    var before := PathText(es) + "/";
    FeedFresh(es);
    FeedAppend(Fresh, before, PredsText(ps));
    FeedPreds(Elems(es), "", ps);
    var p := Feed(Fresh, before + PredsText(ps));
    FeedPath(p, Elems(es), more);
    FeedAppend(Fresh, before + PredsText(ps), PathText(more) + "/");
    var path := before + PredsText(ps) + PathText(more);
    assert path + "/" == before + PredsText(ps) + (PathText(more) + "/");
    PathStarts(es);
    assert path[0] == '/';
  }

  /** The parser starts a predicate of an element without a name. */
  predicate NamelessAt(path: string, i: nat) {
    i < |path| && Feed(Fresh, path[..i]).place == Naming("") && path[i] == '['
  }

  /** An opening bracket directly follows a slash. */
  predicate BareAt(path: string, i: nat) {
    0 < i < |path| && path[i - 1] == '/' && path[i] == '['
  }

  /** The exact condition, for a path whose marks are in place: there, and only there, predicates have no name. */
  lemma NamelessExactly(path: string, i: nat)
    requires Regular(Marks(path)) && path != "" && path[0] == '/'
    ensures NamelessAt(path, i) <==> BareAt(path, i)
  {
    hide Feed, Trim, Regular, Marks;
    if 0 < i < |path| && path[i] == '[' {
      RegularBefore(path, i + 1);
      FeedStep(path, i - 1);
      FeedStep(path, i);
    }
  }

  lemma {:induction false} FeedBehind(p: Parser, text: string)
    requires p.place.Closed? && NameText(text)
    ensures Feed(p, text) == p
  {
    if text != "" {
      FeedBehind(p, text[..|text| - 1]);
    }
  }

  /** A predicate that is not closed is an error, whether it breaks off in its key or in its value. */
  lemma UnclosedIsAnError(es: seq<Source>, name: string, key: string, value: string)
    requires (forall i :: 0 <= i < |es| ==> SourceOk(es[i])) && NameText(name) && InnerText(key) && InnerText(value)
    ensures Parsed(PathText(es) + "/" + name + "[" + key) == Err
    ensures Parsed(PathText(es) + "/" + name + "[" + key + "=" + value) == Err
  {
    hide Feed, PathText, Elems, SourceOk, NameText;
    var before := PathText(es) + "/" + name;
    FeedFresh(es);
    FeedAppend(Fresh, PathText(es) + "/", name);
    FeedName(Elems(es), "", name);
    FeedAppend(Fresh, before, "[");
    FeedOne(Feed(Fresh, before), '[');
    assert InnerText(key + "/") && InnerText(value + "/");
    assert before + "[" + key + "/" == before + "[" + (key + "/");
    FeedAppend(Fresh, before + "[", key + "/");
    FeedKey(Elems(es), "" + name, map[], key + "/");
    FeedAppend(Fresh, before + "[", key);
    FeedKey(Elems(es), "" + name, map[], key);
    FeedAppend(Fresh, before + "[" + key, "=");
    FeedOne(Feed(Fresh, before + "[" + key), '=');
    assert before + "[" + key + "=" + value + "/" == before + "[" + key + "=" + (value + "/");
    FeedAppend(Fresh, before + "[" + key + "=", value + "/");
    FeedValue(Elems(es), "" + name, map[], key, value + "/");
    PathStarts(es);
    assert (before + "[" + key)[0] == '/' && (before + "[" + key + "=" + value)[0] == '/';
  }

  // ---------- rendering ----------

  function Names(elems: seq<Elem>): string {
    if elems == [] then ""
    else Names(elems[..|elems| - 1]) + (if elems[|elems| - 1].name == "" then "" else "/" + elems[|elems| - 1].name)
  }

  /** The rendered path: the names of the elements behind the prefix and the origin. */
  function Render(prefix: string, origin: string, elems: seq<Elem>): string {
    prefix + (if origin == "" then "" else origin + ":") + Names(elems)
  }

  /** The alias of the longest part of the first `n` elements that has one; nothing if none has. */
  ghost predicate LongestAlias(prefix: string, origin: string, elems: seq<Elem>, n: nat, aliases: set<string>,
                               alias: string)
    requires n <= |elems|
  {
    || (alias == "" && forall j :: 0 < j <= n ==> Render(prefix, origin, elems[..j]) !in aliases)
    || (exists k :: 0 < k <= n && alias == Render(prefix, origin, elems[..k]) && alias in aliases
         && forall j :: k < j <= n ==> Render(prefix, origin, elems[..j]) !in aliases)
  }

  lemma AliasStep(prefix: string, origin: string, elems: seq<Elem>, n: nat, aliases: set<string>, alias: string)
    requires n < |elems| && LongestAlias(prefix, origin, elems, n, aliases, alias)
    ensures var path := Render(prefix, origin, elems[..n + 1]);
      LongestAlias(prefix, origin, elems, n + 1, aliases, if path in aliases then path else alias)
  {
    hide Render;
  }

  lemma NoElems(prefix: string, origin: string, elems: seq<Elem>, aliases: set<string>)
    ensures prefix + (if origin == "" then "" else origin + ":") == Render(prefix, origin, elems[..0])
    ensures prefix + "" == prefix
    ensures LongestAlias(prefix, origin, elems, 0, aliases, "")
  {
  }

  lemma OneMoreName(elems: seq<Elem>, i: nat)
    requires i < |elems|
    ensures Names(elems[..i + 1]) == Names(elems[..i]) + (if elems[i].name == "" then "" else "/" + elems[i].name)
  {
    assert elems[..i + 1][..i] == elems[..i];
  }

  // ---------- tags from keys ----------

  /** A key predicate of an element, with the path rendered up to that element. */
  datatype KeyAt = KeyAt(name: string, key: string, value: string)

  /** The short name of a key: dashes become underscores. */
  function Short(key: string): string {
    seq(|key|, i requires 0 <= i < |key| => if key[i] == '-' then '_' else key[i])
  }

  lemma ShortIs(key: string)
    ensures |Short(key)| == |key| && '-' !in Short(key)
    ensures forall i :: 0 <= i < |key| ==> if key[i] == '-' then Short(key)[i] == '_' else Short(key)[i] == key[i]
  {
  }

  function Long(k: KeyAt): string {
    k.name + "/" + Short(k.key)
  }

  /** A key goes under its short name, or under its long name if the short one is taken. */
  function PutKey(tags: map<string, string>, k: KeyAt): map<string, string> {
    tags[(if Short(k.key) in tags then Long(k) else Short(k.key)) := k.value]
  }

  function PutKeys(tags: map<string, string>, ks: seq<KeyAt>): map<string, string> {
    if ks == [] then tags else PutKey(PutKeys(tags, ks[..|ks| - 1]), ks[|ks| - 1])
  }

  /** The tag that a key gets. */
  function TagOf(tags: map<string, string>, ks: seq<KeyAt>, i: nat): string
    requires i < |ks|
  {
    if Short(ks[i].key) in PutKeys(tags, ks[..i]) then Long(ks[i]) else Short(ks[i].key)
  }

  lemma PutOne(tags: map<string, string>, ks: seq<KeyAt>, n: nat)
    requires n < |ks|
    ensures PutKeys(tags, ks[..n + 1]) == PutKeys(tags, ks[..n])[TagOf(tags, ks, n) := ks[n].value]
  {
    assert ks[..n + 1][..n] == ks[..n];
  }

  /** `j` is the last key from `i` on, below `n`, that gets the tag of `i`. */
  ghost predicate LastWith(tags: map<string, string>, ks: seq<KeyAt>, i: nat, n: nat, j: nat)
    requires n <= |ks|
  {
    && i <= j < n && TagOf(tags, ks, j) == TagOf(tags, ks, i)
    && forall k :: j < k < n ==> TagOf(tags, ks, k) != TagOf(tags, ks, i)
  }

  /** A tag holds the value of the last key that gets it, whatever the keys are. */
  lemma {:induction false} LastKeyStays(tags: map<string, string>, ks: seq<KeyAt>, i: nat, n: nat) returns (j: nat)
    requires i < n <= |ks|
    ensures LastWith(tags, ks, i, n, j)
    ensures TagOf(tags, ks, i) in PutKeys(tags, ks[..n]) && PutKeys(tags, ks[..n])[TagOf(tags, ks, i)] == ks[j].value
  {
    hide TagOf, PutKeys;
    PutOne(tags, ks, n - 1);
    if i == n - 1 || TagOf(tags, ks, n - 1) == TagOf(tags, ks, i) {
      j := n - 1;
    } else {
      j := LastKeyStays(tags, ks, i, n - 1);
    }
  }

  /** No key holds a slash. */
  ghost predicate NoSlashes(ks: seq<KeyAt>) {
    forall i :: 0 <= i < |ks| ==> '/' !in ks[i].key
  }

  /** The short name of a key was there before, or an earlier key has it. */
  ghost predicate Taken(tags: map<string, string>, ks: seq<KeyAt>, i: nat)
    requires i < |ks|
  {
    Short(ks[i].key) in tags || exists j :: 0 <= j < i && Short(ks[j].key) == Short(ks[i].key)
  }

  /** Keys of the same path that differ in dashes and underscores only. */
  predicate Alike(a: KeyAt, b: KeyAt) {
    a.name == b.name && Short(a.key) == Short(b.key)
  }

  lemma LongHasSlash(k: KeyAt)
    ensures '/' in Long(k)
  {
    assert Long(k)[|k.name|] == '/';
  }

  lemma ShortHasNone(k: KeyAt)
    requires '/' !in k.key
    ensures '/' !in Short(k.key)
  {
  }

  lemma LongTells(a: KeyAt, b: KeyAt)
    requires '/' !in Short(a.key) && '/' !in Short(b.key)
    ensures Long(a) == Long(b) <==> Alike(a, b)
  {
    hide Short;
    if Long(a) == Long(b) {
      SlashIsLast(a, b);
      SlashIsLast(b, a);
      assert a.name == Long(a)[..|a.name|] && b.name == Long(b)[..|b.name|];
      assert Short(a.key) == Long(a)[|a.name| + 1..] && Short(b.key) == Long(b)[|b.name| + 1..];
    }
  }

  lemma SlashIsLast(a: KeyAt, b: KeyAt)
    requires '/' !in Short(b.key) && Long(a) == Long(b)
    ensures |a.name| <= |b.name|
  {
    hide Short;
    assert Long(a)[|a.name|] == '/';
    assert forall i :: |b.name| < i < |Long(b)| ==> Long(b)[i] == Short(b.key)[i - |b.name| - 1];
  }

  lemma {:induction false} ShortTaken(tags: map<string, string>, ks: seq<KeyAt>, t: string)
    requires '/' !in t
    ensures t in PutKeys(tags, ks) <==> t in tags || exists j :: 0 <= j < |ks| && Short(ks[j].key) == t
  {
    hide Long, Short;
    if ks != [] {
      var init, k := ks[..|ks| - 1], ks[|ks| - 1];
      ShortTaken(tags, init, t);
      LongHasSlash(k);
      assert forall j :: 0 <= j < |init| ==> init[j] == ks[j];
      assert ks[|init|] == k;
    }
  }

  /** Without slashes, the first key with a short name that is free gets it, and every other one its long name. */
  lemma TagIs(tags: map<string, string>, ks: seq<KeyAt>, i: nat)
    requires i < |ks| && '/' !in ks[i].key
    ensures TagOf(tags, ks, i) == if Taken(tags, ks, i) then Long(ks[i]) else Short(ks[i].key)
  {
    hide Long, Short;
    ShortHasNone(ks[i]);
    ShortTaken(tags, ks[..i], Short(ks[i].key));
    assert forall j :: 0 <= j < i ==> ks[..i][j] == ks[j];
  }

  lemma SameTag(tags: map<string, string>, ks: seq<KeyAt>, i: nat, j: nat)
    requires NoSlashes(ks) && i < j < |ks|
    ensures TagOf(tags, ks, i) == TagOf(tags, ks, j) <==> Taken(tags, ks, i) && Alike(ks[i], ks[j])
  {
    hide Long, Short, TagOf;
    TagIs(tags, ks, i);
    TagIs(tags, ks, j);
    ShortHasNone(ks[i]);
    ShortHasNone(ks[j]);
    LongHasSlash(ks[i]);
    LongHasSlash(ks[j]);
    LongTells(ks[i], ks[j]);
  }

  /**
    Exactly when a key is lost, for keys without slashes: its short name is taken and a later
    key of the same path differs in dashes and underscores only. Then the value of the last
    such key is there in its place.
  */
  lemma KeyFound(tags: map<string, string>, ks: seq<KeyAt>, i: nat) returns (j: nat)
    requires NoSlashes(ks) && i < |ks|
    ensures i <= j < |ks| && (i < j <==> Taken(tags, ks, i) && exists k :: i < k < |ks| && Alike(ks[i], ks[k]))
    ensures var t := if Taken(tags, ks, i) then Long(ks[i]) else Short(ks[i].key);
      t in PutKeys(tags, ks) && PutKeys(tags, ks)[t] == ks[j].value
    ensures i < j ==> Alike(ks[i], ks[j]) && forall k :: j < k < |ks| ==> !Alike(ks[i], ks[k])
  {
    hide Long, Short, TagOf, PutKeys, Taken, Alike;
    TagIs(tags, ks, i);
    j := LastKeyStays(tags, ks, i, |ks|);
    assert ks[..|ks|] == ks;
    forall k | i < k < |ks|
      ensures TagOf(tags, ks, i) == TagOf(tags, ks, k) <==> Taken(tags, ks, i) && Alike(ks[i], ks[k])
    {
      SameTag(tags, ks, i, k);
    }
  }

  /** A tag that was there before stays, or holds the value of the last key that gets it. */
  lemma {:induction false} TagsStay(tags: map<string, string>, ks: seq<KeyAt>, t: string, n: nat) returns (j: int)
    requires t in tags && n <= |ks|
    ensures -1 <= j < n && (forall k :: j < k < n ==> TagOf(tags, ks, k) != t) && (0 <= j ==> TagOf(tags, ks, j) == t)
    ensures t in PutKeys(tags, ks[..n]) && PutKeys(tags, ks[..n])[t] == if j < 0 then tags[t] else ks[j].value
  {
    hide TagOf;
    if n == 0 {
      j := -1;
    } else {
      PutOne(tags, ks, n - 1);
      if TagOf(tags, ks, n - 1) == t {
        j := n - 1;
      } else {
        j := TagsStay(tags, ks, t, n - 1);
      }
    }
  }

  /** Exactly when a key gets such a tag: it is its long name, and its short name is taken. */
  lemma TagOverwritten(tags: map<string, string>, ks: seq<KeyAt>, t: string, i: nat)
    requires t in tags && i < |ks|
    ensures TagOf(tags, ks, i) == t ==> Long(ks[i]) == t
    ensures '/' !in ks[i].key ==> (TagOf(tags, ks, i) == t <==> Taken(tags, ks, i) && Long(ks[i]) == t)
  {
    hide Long, Short;
    var j := TagsStay(tags, ks, t, i);
    if '/' !in ks[i].key {
      TagIs(tags, ks, i);
    }
  }

  /** Keys of one element that differ in dashes and underscores only share a long name; then one can be lost. */
  lemma SameLongNameLoses(tags: map<string, string>, a: KeyAt, b: KeyAt)
    requires a.name == b.name && Short(a.key) == Short(b.key) && Short(a.key) in tags
    ensures PutKeys(tags, [a, b]) == tags[Long(a) := b.value]
  {
    assert [a, b][..1] == [a] && [a][..0] == [];
    assert PutKeys(tags, [a]) == tags[Long(a) := a.value];
  }

  /** The keys of an element, each once, in any order. */
  ghost predicate Lists(ks: seq<KeyAt>, name: string, keys: map<string, string>) {
    && |ks| == |keys|
    && (forall i :: 0 <= i < |ks| ==> ks[i].key in keys && ks[i] == KeyAt(name, ks[i].key, keys[ks[i].key]))
    && (forall k <- keys :: exists i :: 0 <= i < |ks| && ks[i].key == k)
  }

  function Flat(parts: seq<seq<KeyAt>>): seq<KeyAt> {
    if parts == [] then [] else Flat(parts[..|parts| - 1]) + parts[|parts| - 1]
  }

  /** The keys of all elements, element by element. */
  ghost predicate Visits(parts: seq<seq<KeyAt>>, prefix: string, origin: string, elems: seq<Elem>) {
    && |parts| == |elems|
    && forall i :: 0 <= i < |elems| ==>
      Lists(parts[i], Render(prefix, origin, elems[..i + 1]), elems[i].keys)
  }

  lemma {:induction false} PutMore(tags: map<string, string>, a: seq<KeyAt>, b: seq<KeyAt>)
    ensures PutKeys(tags, a + b) == PutKeys(PutKeys(tags, a), b)
  {
    hide PutKey;
    if b == [] {
      assert a + b == a;
    } else {
      assert (a + b)[..|a + b| - 1] == a + b[..|b| - 1];
      PutMore(tags, a, b[..|b| - 1]);
    }
  }

  /** Make tags from the keys of an element. */
  method TagElem(tags: map<string, string>, name: string, keys: map<string, string>)
    returns (r: map<string, string>, ghost ks: seq<KeyAt>)
    ensures Lists(ks, name, keys) && r == PutKeys(tags, ks)
  {
    hide PutKey;
    r, ks := tags, [];
    var rest := keys.Keys;
    while rest != {}
      invariant rest <= keys.Keys && |ks| + |rest| == |keys| && r == PutKeys(tags, ks)
      invariant forall i :: 0 <= i < |ks| ==> ks[i].key in keys && ks[i] == KeyAt(name, ks[i].key, keys[ks[i].key])
      invariant forall k <- keys :: k in rest || exists i :: 0 <= i < |ks| && ks[i].key == k
      decreases |rest|
    {
      var k :| k in rest;
      ghost var was, entry := ks, KeyAt(name, k, keys[k]);
      assert (was + [entry])[..|was|] == was;
      r := PutKey(r, KeyAt(name, k, keys[k]));
      ks := was + [entry];
      assert ks[|was|].key == k && forall i :: 0 <= i < |was| ==> ks[i] == was[i];
      rest := rest - {k};
    }
  }

  /** Render a path, find its alias, and make tags from its keys if there are tags to add to. */
  method HandlePath(prefix: string, origin: string, elems: seq<Elem>, aliases: set<string>,
                    tags: Option<map<string, string>>)
    returns (path: string, alias: string, tags': Option<map<string, string>>, ghost parts: seq<seq<KeyAt>>)
    ensures path == Render(prefix, origin, elems)
    ensures LongestAlias(prefix, origin, elems, |elems|, aliases, alias)
    ensures if tags.None? then tags' == None
      else Visits(parts, prefix, origin, elems) && tags' == Some(PutKeys(tags.value, Flat(parts)))
  {
    hide Names, LongestAlias, Lists, PutKeys;
    path := prefix;
    if |origin| > 0 {
      path := path + (origin + ":");
    }
    alias := "";
    tags', parts := tags, [];
    NoElems(prefix, origin, elems, aliases);
    NoKeys(tags);
    for i := 0 to |elems|
      invariant path == Render(prefix, origin, elems[..i])
      invariant LongestAlias(prefix, origin, elems, i, aliases, alias)
      invariant tags.None? ==> tags' == None
      invariant tags.Some? ==> tags' == Some(PutKeys(tags.value, Flat(parts)))
      invariant tags.Some? ==> |parts| == i && forall j :: 0 <= j < i ==>
        Lists(parts[j], Render(prefix, origin, elems[..j + 1]), elems[j].keys)
    {
      OneMoreName(elems, i);
      if |elems[i].name| > 0 {
        path := path + ("/" + elems[i].name);
      }
      assert path == Render(prefix, origin, elems[..i + 1]);
      AliasStep(prefix, origin, elems, i, aliases, alias);
      if path in aliases {
        alias := path;
      }
      if tags'.Some? {
        var r, ks := TagElem(tags'.value, path, elems[i].keys);
        PutMore(tags.value, Flat(parts), ks);
        assert (parts + [ks])[..|parts|] == parts;
        tags', parts := Some(r), parts + [ks];
      }
    }
    assert elems[..|elems|] == elems;
  }

  lemma NoKeys(tags: Option<map<string, string>>)
    ensures tags.Some? ==> tags == Some(PutKeys(tags.value, Flat([])))
  {
  }

  function Erased(es: seq<Source>): seq<Source> {
    if es == [] then [] else Erased(es[..|es| - 1]) + [Source(es[|es| - 1].name, [])]
  }

  /**
    Rendering what was parsed gives the text of the path with exactly its key predicates erased,
    behind the prefix and, if there is one, the origin and a colon.
  */
  lemma {:induction false} RenderErasesKeys(prefix: string, origin: string, es: seq<Source>)
    requires forall i :: 0 <= i < |es| ==> SourceOk(es[i])
    ensures Names(Elems(es)) == PathText(Erased(es))
    ensures Parsed(PathText(es)) == Ok(Elems(es)) && Render("", "", Elems(es)) == PathText(Erased(es))
    ensures Render(prefix, "", Elems(es)) == prefix + PathText(Erased(es))
    ensures origin != "" ==> Render(prefix, origin, Elems(es)) == prefix + origin + ":" + PathText(Erased(es))
  {
    ParseRoundTrip(es);
    if es != [] {
      var init, e := es[..|es| - 1], es[|es| - 1];
      RenderErasesKeys(prefix, origin, init);
      assert Elems(es)[..|Elems(es)| - 1] == Elems(init);
      assert Erased(es)[..|Erased(es)| - 1] == Erased(init);
      assert e.name + PredsText([]) == e.name;
    }
    assert prefix + (origin + ":") == prefix + origin + ":" && prefix + "" == prefix;
  }
}
