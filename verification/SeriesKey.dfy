/**
  The byte streams that `HashID` (`metric/metric.go`) and `groupID`
  (`metric/series_grouper.go`) feed to the hash, and what they identify.
*/
module SeriesKey {
  import opened TagList

  const NL: char := '\n'

  predicate OneLine(s: string) {
    NL !in s
  }

  ghost predicate PlainTags(l: Tags) {
    forall i :: 0 <= i < |l| ==> OneLine(l[i].key) && OneLine(l[i].value)
  }

  function TagLines(l: Tags): string {
    if l == [] then "" else l[0].key + [NL] + (l[0].value + [NL] + TagLines(l[1..]))
  }

  /** What `HashID` hashes. */
  function SeriesStream(name: string, l: Tags): string {
    name + [NL] + TagLines(l)
  }

  function Digit(n: nat): char
    requires n < 10
  {
    '0' + n as char
  }

  /** `strconv.FormatInt(n, 10)` */
  function DecimalNat(n: nat): string {
    if n < 10 then [Digit(n)] else DecimalNat(n / 10) + [Digit(n % 10)]
  }

  function Decimal(n: int): string {
    if n < 0 then ['-'] + DecimalNat(-n) else DecimalNat(n)
  }

  /** What `groupID` hashes: the series, an empty line, and the time. */
  function GroupStream(name: string, l: Tags, tm: int): string {
    name + [NL] + (TagLines(l) + ([NL] + Decimal(tm)))
  }

  /** Writing the tags one by one builds the same lines. */
  lemma {:induction false} TagLinesAppend(l: Tags, i: nat)
    requires i < |l|
    ensures TagLines(l[..i + 1]) == TagLines(l[..i]) + (l[i].key + [NL] + l[i].value + [NL])
  {
    if 0 < i {
      TagLinesAppend(l[1..], i - 1);
      assert l[..i + 1][1..] == l[1..][..i] && l[..i][1..] == l[1..][..i - 1];
    } else {
      assert l[..1][1..] == [] && l[..0] == [];
    }
  }

  // ---------- reading a stream back ----------

  lemma LineEnds(a: string, x: string, b: string, y: string)
    requires a + [NL] + x == b + [NL] + y
    ensures |a| < |b| ==> NL in b
  {
    if |a| < |b| {
      assert (a + [NL] + x)[|a|] == NL && (b + [NL] + y)[|a|] == b[|a|];
    }
  }

  /** A line ends at the first newline: what is before and after it is determined. */
  lemma {:induction false} SplitLine(a: string, x: string, b: string, y: string)
    requires OneLine(a) && OneLine(b) && a + [NL] + x == b + [NL] + y
    ensures a == b && x == y
  {
    var s, t := a + [NL] + x, b + [NL] + y;
    LineEnds(a, x, b, y);
    LineEnds(b, y, a, x);
    assert a == s[..|a|] && b == t[..|b|];
    assert x == s[|a| + 1..] && y == t[|b| + 1..];
  }

  /** A stream without a newline cannot be one with a newline. */
  lemma NoLine(a: string, x: string, d: string)
    requires OneLine(d)
    ensures a + [NL] + x != d
  {
    var s := a + [NL] + x;
    assert s[|a|] == NL;
    assert s[|a|] in s;
  }

  /** The tags can be read back from their lines, whatever follows, if what follows ends the list. */
  lemma {:induction false} TagLinesInjective(k: Tags, l: Tags)
    requires PlainTags(k) && PlainTags(l) && TagLines(k) == TagLines(l)
    ensures k == l
  {
    if k != [] && l != [] {
      SplitLine(k[0].key, k[0].value + [NL] + TagLines(k[1..]), l[0].key, l[0].value + [NL] + TagLines(l[1..]));
      SplitLine(k[0].value, TagLines(k[1..]), l[0].value, TagLines(l[1..]));
      TagLinesInjective(k[1..], l[1..]);
      assert k == [k[0]] + k[1..] && l == [l[0]] + l[1..];
    }
  }

  /** The stream of a series is equal for equal name and tags only. */
  lemma SeriesInjective(name: string, k: Tags, name': string, l: Tags)
    requires OneLine(name) && OneLine(name') && PlainTags(k) && PlainTags(l)
    ensures SeriesStream(name, k) == SeriesStream(name', l) <==> name == name' && k == l
  {
    if SeriesStream(name, k) == SeriesStream(name', l) {
      SplitLine(name, TagLines(k), name', TagLines(l));
      TagLinesInjective(k, l);
    }
  }

  /** So the hash input identifies the series: the name and the map of its tags. */
  lemma SeriesIdentity(name: string, k: Tags, name': string, l: Tags)
    requires OneLine(name) && OneLine(name') && PlainTags(k) && PlainTags(l) && Sorted(k) && Sorted(l)
    ensures SeriesStream(name, k) == SeriesStream(name', l) <==> name == name' && AsMap(k) == AsMap(l)
  {
    SeriesInjective(name, k, name', l);
    if AsMap(k) == AsMap(l) {
      Canonical(k, l);
    }
  }

  /**
    With newlines it does not: wherever a name has one, a part of it can be read as tags, and part
    of a key as a name.
  */
  lemma NewlineCollision(a: string, b: string, c: string, v: string)
    ensures SeriesStream(a + [NL] + b + [NL] + c, []) == SeriesStream(a, [Pair(b, c)])
    ensures SeriesStream(a + [NL] + b, [Pair(c, v)]) == SeriesStream(a, [Pair(b + [NL] + c, v)])
    ensures a + [NL] + b != a
  {
    OneTagLine(b, c);
    OneTagLine(c, v);
    OneTagLine(b + [NL] + c, v);
    assert a + [NL] + b + [NL] + c + [NL] == a + [NL] + (b + [NL] + c + [NL]);
    assert a + [NL] + b + [NL] + (c + [NL] + v + [NL]) == a + [NL] + (b + [NL] + c + [NL] + v + [NL]);
    assert |a + [NL] + b| > |a|;
  }

  /** Another series, with its tags in order, has the same stream. */
  ghost predicate HasTwin(name: string, k: Tags) {
    exists name', l :: Sorted(l) && (name' != name || l != k) && SeriesStream(name', l) == SeriesStream(name, k)
  }

  ghost predicate TwoNewlines(s: string) {
    exists i, j :: 0 <= i < j < |s| && s[i] == NL && s[j] == NL
  }

  /** Exactly when there is one: the series has a tag, or two newlines in its name. */
  lemma TwinExactly(name: string, k: Tags)
    requires Sorted(k)
    ensures HasTwin(name, k) <==> k != [] || TwoNewlines(name)
  {
    hide TagLines, Sorted;
    if k != [] {
      TagsAsName(name, k);
    } else {
      if TwoNewlines(name) {
        var i, j :| 0 <= i < j < |name| && name[i] == NL && name[j] == NL;
        var a, b, c := name[..i], name[i + 1..j], name[j + 1..];
        assert name == a + [NL] + b + [NL] + c;
        NewlineCollision(a, b, c, "");
        assert Sorted([Pair(b, c)]) by { OneSorted(Pair(b, c)); }
      }
      if HasTwin(name, k) {
        var name', l :| Sorted(l) && (name' != name || l != k) && SeriesStream(name', l) == SeriesStream(name, k);
        NoTags();
        SameName(name, name');
        if l != [] {
          TagsHaveNewlines(name, name', l);
        }
      }
    }
  }

  lemma SameName(a: string, b: string)
    ensures SeriesStream(a, []) == SeriesStream(b, []) ==> a == b
  {
    assert a == SeriesStream(a, [])[..|a|] && b == SeriesStream(b, [])[..|b|];
  }

  lemma NoTags()
    ensures TagLines([]) == ""
  {
  }

  lemma OneSorted(p: Pair)
    ensures Sorted([p])
  {
  }

  lemma TagsAsName(name: string, k: Tags)
    requires k != []
    ensures HasTwin(name, k)
  {
    EndsInNewline(k);
    var lines := TagLines(k);
    var all := name + [NL] + lines[..|lines| - 1];
    assert lines == lines[..|lines| - 1] + [NL];
    assert SeriesStream(all, []) == all + [NL] + "" == all + [NL] == SeriesStream(name, k);
    assert Sorted([]);
  }

  lemma {:induction false} EndsInNewline(k: Tags)
    requires k != []
    ensures TagLines(k) != "" && TagLines(k)[|TagLines(k)| - 1] == NL
  {
    if |k| > 1 {
      EndsInNewline(k[1..]);
    } else {
      assert k == [Pair(k[0].key, k[0].value)];
      OneTagLine(k[0].key, k[0].value);
    }
  }

  lemma TagsHaveNewlines(name: string, name': string, l: Tags)
    requires l != [] && name + [NL] == SeriesStream(name', l)
    ensures TwoNewlines(name)
  {
    var s, i, j := SeriesStream(name', l), |name'|, |name'| + 1 + |l[0].key|;
    var rest := TagLines(l[1..]);
    assert s == name' + [NL] + l[0].key + [NL] + l[0].value + [NL] + rest;
    assert s[i] == NL && s[j] == NL && j < |s| - 1;
    assert name == s[..|s| - 1];
  }

  lemma OneTagLine(k: string, v: string)
    ensures TagLines([Pair(k, v)]) == k + [NL] + v + [NL]
  {
    assert [Pair(k, v)][1..] == [];
    assert k + [NL] + v + [NL] + "" == k + [NL] + v + [NL];
  }

  // ---------- times ----------

  function ValueNat(s: string): nat
    requires forall i :: 0 <= i < |s| ==> '0' <= s[i] <= '9'
  {
    if s == "" then 0 else ValueNat(s[..|s| - 1]) * 10 + (s[|s| - 1] - '0') as nat
  }

  /** The digits of a number give the number back. */
  lemma {:induction false} DecimalValue(n: nat)
    ensures DecimalNat(n) != "" && forall i :: 0 <= i < |DecimalNat(n)| ==> '0' <= DecimalNat(n)[i] <= '9'
    ensures ValueNat(DecimalNat(n)) == n
  {
    var s := DecimalNat(n);
    if n < 10 {
      assert s[..0] == "";
    } else {
      DecimalValue(n / 10);
      assert s[..|s| - 1] == DecimalNat(n / 10);
    }
  }

  lemma DecimalNatInjective(m: nat, n: nat)
    ensures DecimalNat(m) == DecimalNat(n) ==> m == n
    ensures DecimalNat(m)[0] != '-' && OneLine(DecimalNat(m))
  {
    hide DecimalNat, ValueNat;
    DecimalValue(m);
    DecimalValue(n);
  }

  /** Different numbers print differently: the digits of one, with a minus sign if it is negative, give it back. */
  lemma DecimalInjective(m: int, n: int)
    ensures OneLine(Decimal(m)) && (m < 0 ==> Decimal(m) == "-" + Decimal(-m))
    ensures Decimal(m) == Decimal(n) <==> m == n
  {
    hide DecimalNat;
    var a, b := if m < 0 then -m else m, if n < 0 then -n else n;
    DecimalNatInjective(a, b);
    DecimalNatInjective(b, a);
    assert (['-'] + DecimalNat(a))[1..] == DecimalNat(a) && (['-'] + DecimalNat(b))[1..] == DecimalNat(b);
    assert (['-'] + DecimalNat(a))[0] == '-' && (['-'] + DecimalNat(b))[0] == '-';
  }

  lemma {:induction false} TagLinesThenTime(k: Tags, m: int, l: Tags, n: int)
    requires PlainTags(k) && PlainTags(l)
    requires TagLines(k) + ([NL] + Decimal(m)) == TagLines(l) + ([NL] + Decimal(n))
    ensures k == l && m == n
  {
    DecimalInjective(m, n);
    DecimalInjective(n, m);
    if k == [] && l == [] {
      assert "" + [NL] + Decimal(m) == TagLines(k) + ([NL] + Decimal(m));
      assert "" + [NL] + Decimal(n) == TagLines(l) + ([NL] + Decimal(n));
      SplitLine("", Decimal(m), "", Decimal(n));
    } else if k == [] {
      TimeIsNotATag(m, l, n);
    } else if l == [] {
      TimeIsNotATag(n, k, m);
    } else {
      var x, y := TagLines(k[1..]) + ([NL] + Decimal(m)), TagLines(l[1..]) + ([NL] + Decimal(n));
      Regroup(k, [NL] + Decimal(m));
      Regroup(l, [NL] + Decimal(n));
      SplitLine(k[0].key, k[0].value + [NL] + x, l[0].key, l[0].value + [NL] + y);
      SplitLine(k[0].value, x, l[0].value, y);
      TagLinesThenTime(k[1..], m, l[1..], n);
      assert k == [k[0]] + k[1..] && l == [l[0]] + l[1..];
    }
  }

  lemma Regroup(k: Tags, end: string)
    requires k != []
    ensures TagLines(k) + end == k[0].key + [NL] + (k[0].value + [NL] + (TagLines(k[1..]) + end))
  {
  }

  lemma TimeIsNotATag(m: int, l: Tags, n: int)
    requires PlainTags(l) && l != []
    ensures [NL] + Decimal(m) != TagLines(l) + ([NL] + Decimal(n))
  {
    var y := TagLines(l[1..]) + ([NL] + Decimal(n));
    Regroup(l, [NL] + Decimal(n));
    DecimalInjective(m, m);
    NoLine(l[0].value, y, Decimal(m));
    if [NL] + Decimal(m) == TagLines(l) + ([NL] + Decimal(n)) {
      assert "" + [NL] + Decimal(m) == [NL] + Decimal(m);
      SplitLine("", Decimal(m), l[0].key, l[0].value + [NL] + y);
    }
  }

  lemma GroupStreamIs(name: string, k: Tags, m: int)
    ensures GroupStream(name, k, m) == SeriesStream(name, k) + "\n" + Decimal(m)
  {
    hide TagLines, Decimal;
    var lines, end := TagLines(k), Decimal(m);
    assert name + [NL] + (lines + ([NL] + end)) == name + [NL] + lines + "\n" + end;
  }

  /** The stream of a group is equal for equal name, tags and time only. */
  lemma GroupIdentity(name: string, k: Tags, m: int, name': string, l: Tags, n: int)
    requires OneLine(name) && OneLine(name') && PlainTags(k) && PlainTags(l) && Sorted(k) && Sorted(l)
    ensures GroupStream(name, k, m) == GroupStream(name', l, n) <==> name == name' && AsMap(k) == AsMap(l) && m == n
    ensures GroupStream(name, k, m) == SeriesStream(name, k) + "\n" + Decimal(m)
  {
    hide TagLines, Decimal, Sorted;
    GroupStreamIs(name, k, m);
    if GroupStream(name, k, m) == GroupStream(name', l, n) {
      SplitLine(name, TagLines(k) + ([NL] + Decimal(m)), name', TagLines(l) + ([NL] + Decimal(n)));
      TagLinesThenTime(k, m, l, n);
    }
    if AsMap(k) == AsMap(l) {
      Canonical(k, l);
    }
  }
}
