/** The weight-file grammar of `parseWeights` (plugin/loadbalance/weighted.go),
    as a fold over the file's lines. The state after each line is the domain
    table built so far and the current domain; the first offending line stops
    the fold with its error, and the table built up to then stays as it
    is. */
module Parser {
  import opened Wrappers
  import opened Net
  import opened Text
  import opened Weights

  /** The five grammar violations, each with the text its message quotes. */
  datatype ParseError =
    | WrongDomainName(name: string)
    | WrongIPAddress(address: string)
    | WrongWeightValue(weight: string)
    | MissingDomainName
    | CouldNotParseLine(line: string)

  /** The words each error message starts with. */
  function Headline(e: ParseError): string {
    match e
    case WrongDomainName(_) => "Wrong domain name"
    case WrongIPAddress(_) => "Wrong IP address"
    case WrongWeightValue(_) => "Wrong weight value"
    case MissingDomainName => "Missing domain name"
    case CouldNotParseLine(_) => "Could not parse weight line"
  }

  /** The message `parseWeights` formats for an error in the weight file
      `fileName`: it starts with the error's headline. */
  function Message(e: ParseError, fileName: string): (m: string)
    ensures Headline(e) <= m
  {
    var quoted := (s: string) => ":\"" + s + "\" in weight file " + fileName;
    match e
    case WrongDomainName(n) => Headline(e) + quoted(n) + ". (Maybe a missing weight value?)"
    case WrongIPAddress(a) => Headline(e) + quoted(a)
    case WrongWeightValue(w) => Headline(e) + quoted(w)
    case MissingDomainName => Headline(e) + " in weight file " + fileName
    case CouldNotParseLine(l) => Headline(e) + quoted(l)
  }

  /** What a line is, by its trimmed text and its number of fields. */
  datatype Line = Skip | Header(name: string) | Entry(address: string, weight: string) | Malformed(text: string)

  function ClassifyLine(raw: string): (l: Line)
    ensures l.Skip? <==> TrimSpace(raw) == [] || TrimSpace(raw)[0] == '#'
    ensures l.Header? ==> l.name != [] && NoSpace(l.name) && l.name[0] != '#'
    ensures l.Entry? ==> l.address != [] && NoSpace(l.address) && l.address[0] != '#' &&
                         l.weight != [] && NoSpace(l.weight)
    ensures l.Malformed? ==> l.text == TrimSpace(raw) && |Fields(l.text)| > 2
    ensures !l.Skip? ==> (l.Header? <==> |Fields(TrimSpace(raw))| == 1) &&
                         (l.Entry? <==> |Fields(TrimSpace(raw))| == 2) &&
                         (l.Malformed? <==> |Fields(TrimSpace(raw))| > 2)
    ensures l.Header? ==> Fields(TrimSpace(raw)) == [l.name]
    ensures l.Entry? ==> Fields(TrimSpace(raw)) == [l.address, l.weight]
  {
    var t := TrimSpace(raw);
    if |t| == 0 || t[0] == '#' then Skip
    else
      var f := Fields(t);
      assert !AllSpace(t) && Span(t, 0, true) == 0;
      assert f[0][0] == t[0];
      if |f| == 1 then Header(f[0])
      else if |f| == 2 then Entry(f[0], f[1])
      else Malformed(t)
  }

  /** The domain key of a header: the name with the root label `.` added
      when it does not already end in one. */
  function Normalize(name: string): (k: string)
    requires name != []
    ensures k != [] && k[|k| - 1] == '.'
    ensures k == name || k == name + "."
    ensures name[|name| - 1] == '.' ==> k == name
  {
    if name[|name| - 1] != '.' then name + "." else name
  }

  type Table = map<string, Domain>

  datatype ParseState = Parsing(table: Table, cur: Option<string>) | Failed(table: Table, error: ParseError)

  /** Every domain in the table is a `blank` one with weights appended, and
      the current domain is in the table. */
  predicate Consistent(p: ParseState, blank: Domain) {
    (p.Parsing? && p.cur.Some? ==> p.cur.value in p.table) &&
    forall k | k in p.table :: p.table[k] == blank.(weights := p.table[k].weights)
  }

  /** One iteration of the scanner loop of `parseWeights`. */
  function StepLine(p: ParseState, line: string, parseIP: string -> Option<IP>, blank: Domain): (r: ParseState)
    requires p.Parsing? && Consistent(p, blank)
    ensures Consistent(r, blank) && p.table.Keys <= r.table.Keys
  {
    match ClassifyLine(line)
    case Skip => p
    case Header(name) =>
      if parseIP(name).Some? then Failed(p.table, WrongDomainName(name))
      else
        var k := Normalize(name);
        Parsing(if k in p.table then p.table else p.table[k := blank], Some(k))
    case Entry(a, w) =>
      if parseIP(a).None? then Failed(p.table, WrongIPAddress(a))
      else if ParseUint8(w).None? then Failed(p.table, WrongWeightValue(w))
      else if p.cur.None? then Failed(p.table, MissingDomainName)
      else
        var k, item := p.cur.value, WeightItem(parseIP(a).value, ParseUint8(w).value);
        Parsing(p.table[k := p.table[k].(weights := p.table[k].weights + [item])], p.cur)
    case Malformed(t) => Failed(p.table, CouldNotParseLine(t))
  }

  /** The state after all of `lines`, starting from an empty table. */
  function ParseLines(lines: seq<string>, parseIP: string -> Option<IP>, blank: Domain): (p: ParseState)
    requires blank.weights == []
    ensures Consistent(p, blank)
  {
    if lines == [] then Parsing(map[], None)
    else
      var prev := ParseLines(lines[..|lines| - 1], parseIP, blank);
      if prev.Failed? then prev else StepLine(prev, lines[|lines| - 1], parseIP, blank)
  }

  // ------------------------------------------------------ errors

  lemma ParseLinesStep(lines: seq<string>, i: nat, parseIP: string -> Option<IP>, blank: Domain)
    requires blank.weights == [] && i < |lines|
    requires ParseLines(lines[..i], parseIP, blank).Parsing?
    ensures ParseLines(lines[..i + 1], parseIP, blank) == StepLine(ParseLines(lines[..i], parseIP, blank), lines[i], parseIP, blank)
  {
    assert lines[..i + 1][..i] == lines[..i];
  }

  lemma {:induction false} FailedStays(lines: seq<string>, j: nat, parseIP: string -> Option<IP>, blank: Domain)
    requires blank.weights == [] && j <= |lines|
    requires ParseLines(lines[..j], parseIP, blank).Failed?
    ensures ParseLines(lines, parseIP, blank) == ParseLines(lines[..j], parseIP, blank)
    decreases |lines|
  {
    if j < |lines| {
      var pre := lines[..|lines| - 1];
      assert pre[..j] == lines[..j];
      FailedStays(pre, j, parseIP, blank);
    } else {
      assert lines[..j] == lines;
    }
  }

  /** Parsing stops at the first offending line: its error is the result,
      and the table is the one built from the lines before it. */
  lemma FirstError(lines: seq<string>, i: nat, parseIP: string -> Option<IP>, blank: Domain)
    requires blank.weights == [] && i < |lines|
    requires ParseLines(lines[..i], parseIP, blank).Parsing?
    requires StepLine(ParseLines(lines[..i], parseIP, blank), lines[i], parseIP, blank).Failed?
    ensures ParseLines(lines, parseIP, blank) == StepLine(ParseLines(lines[..i], parseIP, blank), lines[i], parseIP, blank)
  {
    assert lines[..i + 1][..i] == lines[..i];
    FailedStays(lines, i + 1, parseIP, blank);
  }

  predicate NoHeader(lines: seq<string>) {
    forall j :: 0 <= j < |lines| ==> !ClassifyLine(lines[j]).Header?
  }

  /** Only a header line changes the current domain. */
  lemma StepKeepsCurrent(p: ParseState, line: string, parseIP: string -> Option<IP>, blank: Domain)
    requires p.Parsing? && Consistent(p, blank) && !ClassifyLine(line).Header?
    requires StepLine(p, line, parseIP, blank).Parsing?
    ensures StepLine(p, line, parseIP, blank).cur == p.cur
  {
  }

  lemma {:induction false} NoCurrentDomain(lines: seq<string>, parseIP: string -> Option<IP>, blank: Domain)
    requires blank.weights == [] && NoHeader(lines)
    requires ParseLines(lines, parseIP, blank).Parsing?
    ensures ParseLines(lines, parseIP, blank).cur == None
  {
    if lines != [] {
      var pre := lines[..|lines| - 1];
      assert NoHeader(pre) by {
        forall j | 0 <= j < |pre| ensures !ClassifyLine(pre[j]).Header? {
          assert pre[j] == lines[j];
        }
      }
      var last := lines[|lines| - 1];
      assert !ClassifyLine(last).Header?;
      NoCurrentDomain(pre, parseIP, blank);
      StepKeepsCurrent(ParseLines(pre, parseIP, blank), last, parseIP, blank);
    }
  }

  /** The error of each rule, checked in the order the source checks them,
      when line `i` is the first line that breaks one: a one-token line that
      is an IP address; on a two-token line, a bad address, then a weight
      that is not a base-10 number in 0..255, then no header before it; any
      other number of tokens on a line that is neither blank nor a
      comment. */
  lemma ErrorRules(lines: seq<string>, i: nat, parseIP: string -> Option<IP>, blank: Domain)
    requires blank.weights == [] && i < |lines|
    requires ParseLines(lines[..i], parseIP, blank).Parsing?
    ensures var t, before := TrimSpace(lines[i]), ParseLines(lines[..i], parseIP, blank).table;
            var f := Fields(t);
            var result := ParseLines(lines, parseIP, blank);
            (t != [] && t[0] != '#' ==>
              (|f| == 1 && parseIP(f[0]).Some? ==> result == Failed(before, WrongDomainName(f[0]))) &&
              (|f| == 2 && parseIP(f[0]).None? ==> result == Failed(before, WrongIPAddress(f[0]))) &&
              (|f| == 2 && parseIP(f[0]).Some? && !(|f[1]| > 0 && AllDigits(f[1]) && DecimalValue(f[1]) <= 255) ==>
                 result == Failed(before, WrongWeightValue(f[1]))) &&
              (|f| == 2 && parseIP(f[0]).Some? && ParseUint8(f[1]).Some? && NoHeader(lines[..i]) ==>
                 result == Failed(before, MissingDomainName)) &&
              (|f| != 1 && |f| != 2 ==> result == Failed(before, CouldNotParseLine(t))))
  {
    var p := ParseLines(lines[..i], parseIP, blank);
    if NoHeader(lines[..i]) {
      NoCurrentDomain(lines[..i], parseIP, blank);
    }
    if StepLine(p, lines[i], parseIP, blank).Failed? {
      FirstError(lines, i, parseIP, blank);
    }
  }

  // ------------------------------------------- ignored lines

  predicate Ignored(line: string) {
    ClassifyLine(line).Skip?
  }

  /** `lines` without its blank and comment lines. */
  function WithoutIgnored(lines: seq<string>): seq<string> {
    if lines == [] then []
    else
      var pre := WithoutIgnored(lines[..|lines| - 1]);
      if Ignored(lines[|lines| - 1]) then pre else pre + [lines[|lines| - 1]]
  }

  /** Blank lines and lines starting with `#` (after trimming) change
      nothing: removing them all gives the same result. */
  lemma {:induction false} IgnoredLinesChangeNothing(lines: seq<string>, parseIP: string -> Option<IP>, blank: Domain)
    requires blank.weights == []
    ensures ParseLines(lines, parseIP, blank) == ParseLines(WithoutIgnored(lines), parseIP, blank)
  {
    if lines != [] {
      var pre := lines[..|lines| - 1];
      IgnoredLinesChangeNothing(pre, parseIP, blank);
      var last := lines[|lines| - 1];
      if !Ignored(last) {
        var w := WithoutIgnored(pre) + [last];
        assert w[..|w| - 1] == WithoutIgnored(pre);
      }
    }
  }

  // ---------------------------------------- grouping by header

  function HeaderKey(line: string): Option<string> {
    match ClassifyLine(line)
    case Header(name) => Some(Normalize(name))
    case _ => None
  }

  /** The key of the last header line of `lines`, if any. */
  function CurrentHeader(lines: seq<string>): Option<string> {
    if lines == [] then None
    else if HeaderKey(lines[|lines| - 1]).Some? then HeaderKey(lines[|lines| - 1])
    else CurrentHeader(lines[..|lines| - 1])
  }

  /** The keys of all header lines of `lines`. */
  function Headers(lines: seq<string>): set<string> {
    if lines == [] then {}
    else
      var pre := Headers(lines[..|lines| - 1]);
      match HeaderKey(lines[|lines| - 1])
      case Some(k) => pre + {k}
      case None => pre
  }

  /** The weight item of an address line whose address and weight parse. */
  function EntryItem(line: string, parseIP: string -> Option<IP>): Option<WeightItem> {
    match ClassifyLine(line)
    case Entry(a, w) =>
      if parseIP(a).Some? && ParseUint8(w).Some? then Some(WeightItem(parseIP(a).value, ParseUint8(w).value)) else None
    case _ => None
  }

  /** The items of the address lines whose last header before them has key
      `k`, in file order: the entries of every occurrence of that header,
      one after another. */
  function EntriesUnder(lines: seq<string>, k: string, parseIP: string -> Option<IP>): seq<WeightItem> {
    if lines == [] then []
    else
      var pre := lines[..|lines| - 1];
      var item := EntryItem(lines[|lines| - 1], parseIP);
      EntriesUnder(pre, k, parseIP) + (if CurrentHeader(pre) == Some(k) && item.Some? then [item.value] else [])
  }

  lemma {:induction false} CurrentHeaderIsHeader(lines: seq<string>)
    ensures CurrentHeader(lines).Some? ==> CurrentHeader(lines).value in Headers(lines)
  {
    if lines != [] {
      CurrentHeaderIsHeader(lines[..|lines| - 1]);
    }
  }

  lemma {:induction false} NoEntriesWithoutHeader(lines: seq<string>, k: string, parseIP: string -> Option<IP>)
    requires k !in Headers(lines)
    ensures EntriesUnder(lines, k, parseIP) == []
  {
    if lines != [] {
      var pre := lines[..|lines| - 1];
      NoEntriesWithoutHeader(pre, k, parseIP);
      CurrentHeaderIsHeader(pre);
    }
  }

  /** The state `p` after `lines` groups them by header: one domain per
      distinct normalised header, each holding the entries written under
      that header anywhere in `lines`, in order, and the current domain is
      the last header. */
  predicate Grouped(lines: seq<string>, p: ParseState, parseIP: string -> Option<IP>, blank: Domain) {
    p.Parsing? && p.cur == CurrentHeader(lines) && p.table.Keys == Headers(lines) &&
    forall k | k in p.table :: p.table[k] == blank.(weights := EntriesUnder(lines, k, parseIP))
  }

  /** The grouping functions on a file one line longer. */
  lemma GroupingUnfold(pre: seq<string>, last: string, parseIP: string -> Option<IP>)
    ensures CurrentHeader(pre + [last]) == if HeaderKey(last).Some? then HeaderKey(last) else CurrentHeader(pre)
    ensures Headers(pre + [last]) == Headers(pre) + (if HeaderKey(last).Some? then {HeaderKey(last).value} else {})
    ensures forall k :: EntriesUnder(pre + [last], k, parseIP) ==
                        EntriesUnder(pre, k, parseIP) +
                        (if CurrentHeader(pre) == Some(k) && EntryItem(last, parseIP).Some? then [EntryItem(last, parseIP).value] else [])
  {
    assert (pre + [last])[..|pre|] == pre;
  }

  /** A successful header line makes its key current, adding a blank
      domain for a new key. */
  lemma HeaderStep(prev: ParseState, last: string, parseIP: string -> Option<IP>, blank: Domain)
    requires prev.Parsing? && Consistent(prev, blank)
    requires ClassifyLine(last).Header? && StepLine(prev, last, parseIP, blank).Parsing?
    ensures HeaderKey(last).Some?
    ensures var k := HeaderKey(last).value;
            StepLine(prev, last, parseIP, blank) ==
            Parsing(if k in prev.table then prev.table else prev.table[k := blank], Some(k))
  {
  }

  /** A header line keeps the grouping: a new key starts with no entries. */
  lemma GroupingHeader(pre: seq<string>, last: string, parseIP: string -> Option<IP>, blank: Domain, prev: ParseState)
    requires blank.weights == [] && Consistent(prev, blank) && Grouped(pre, prev, parseIP, blank)
    requires ClassifyLine(last).Header? && StepLine(prev, last, parseIP, blank).Parsing?
    ensures Grouped(pre + [last], StepLine(prev, last, parseIP, blank), parseIP, blank)
  {
    GroupingUnfold(pre, last, parseIP);
    HeaderStep(prev, last, parseIP, blank);
    var k := HeaderKey(last).value;
    assert EntryItem(last, parseIP).None?;
    if k !in prev.table {
      NoEntriesWithoutHeader(pre, k, parseIP);
    }
  }

  /** A successful line that is neither a header nor an address line is a
      blank line or a comment, and changes nothing. */
  lemma GroupingSkip(pre: seq<string>, last: string, parseIP: string -> Option<IP>, blank: Domain, prev: ParseState)
    requires blank.weights == [] && Consistent(prev, blank) && Grouped(pre, prev, parseIP, blank)
    requires !ClassifyLine(last).Header? && !ClassifyLine(last).Entry? && StepLine(prev, last, parseIP, blank).Parsing?
    ensures Grouped(pre + [last], StepLine(prev, last, parseIP, blank), parseIP, blank)
  {
    GroupingUnfold(pre, last, parseIP);
    assert StepLine(prev, last, parseIP, blank) == prev;
    assert HeaderKey(last).None? && EntryItem(last, parseIP).None?;
  }

  /** A successful address line appends its item to the current domain. */
  lemma EntryStep(prev: ParseState, last: string, parseIP: string -> Option<IP>, blank: Domain)
    requires prev.Parsing? && Consistent(prev, blank)
    requires ClassifyLine(last).Entry? && StepLine(prev, last, parseIP, blank).Parsing?
    ensures prev.cur.Some? && prev.cur.value in prev.table && EntryItem(last, parseIP).Some?
    ensures var k, item := prev.cur.value, EntryItem(last, parseIP).value;
            StepLine(prev, last, parseIP, blank) ==
            Parsing(prev.table[k := prev.table[k].(weights := prev.table[k].weights + [item])], prev.cur)
  {
  }

  /** An address line keeps the grouping: its item goes to the current
      header's entries. */
  lemma GroupingEntry(pre: seq<string>, last: string, parseIP: string -> Option<IP>, blank: Domain, prev: ParseState)
    requires blank.weights == [] && Consistent(prev, blank) && Grouped(pre, prev, parseIP, blank)
    requires ClassifyLine(last).Entry? && StepLine(prev, last, parseIP, blank).Parsing?
    ensures Grouped(pre + [last], StepLine(prev, last, parseIP, blank), parseIP, blank)
  {
    GroupingUnfold(pre, last, parseIP);
    EntryStep(prev, last, parseIP, blank);
    assert HeaderKey(last).None?;
  }

  /** Every successful line keeps the grouping. */
  lemma GroupingStep(pre: seq<string>, last: string, parseIP: string -> Option<IP>, blank: Domain, prev: ParseState)
    requires blank.weights == [] && Consistent(prev, blank) && Grouped(pre, prev, parseIP, blank)
    requires StepLine(prev, last, parseIP, blank).Parsing?
    ensures Grouped(pre + [last], StepLine(prev, last, parseIP, blank), parseIP, blank)
  {
    if ClassifyLine(last).Header? {
      GroupingHeader(pre, last, parseIP, blank, prev);
    } else if ClassifyLine(last).Entry? {
      GroupingEntry(pre, last, parseIP, blank, prev);
    } else {
      GroupingSkip(pre, last, parseIP, blank, prev);
    }
  }

  /** After a successful parse, the table has one domain per distinct
      normalised header, each holding the entries written under that header
      anywhere in the file, in file order (a repeated header reuses its
      entry), and the current domain is the last header. */
  lemma {:induction false} Grouping(lines: seq<string>, parseIP: string -> Option<IP>, blank: Domain)
    requires blank.weights == []
    requires ParseLines(lines, parseIP, blank).Parsing?
    ensures Grouped(lines, ParseLines(lines, parseIP, blank), parseIP, blank)
  {
    if lines != [] {
      var pre := lines[..|lines| - 1];
      var last := lines[|lines| - 1];
      var prev := ParseLines(pre, parseIP, blank);
      Grouping(pre, parseIP, blank);
      assert prev.Parsing? && ParseLines(lines, parseIP, blank) == StepLine(prev, last, parseIP, blank);
      GroupingStep(pre, last, parseIP, blank, prev);
      assert lines == pre + [last];
    }
  }
}
