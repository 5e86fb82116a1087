/** The weight file `oneDomainWRR` and the selector sequences of
    plugin/loadbalance/weighted_test.go, worked through the model.
    `net.ParseIP` is left abstract: each lemma states what it answers for
    the strings the file contains. */
module Scenarios {
  import opened Wrappers
  import opened Net
  import opened Text
  import opened Weights
  import opened Parser
  import opened Weighted

  // -------------------------------------------------- single lines

  lemma BlankLine()
    ensures ClassifyLine("") == Skip
  {
  }

  /** A line holding one word is a header for that word. */
  lemma HeaderLine(w: string)
    requires w != [] && NoSpace(w) && w[0] != '#'
    ensures ClassifyLine(w) == Header(w)
  {
    TrimSpaceOfPadded("", w, "");
    assert "" + w + "" == w;
    FieldsOfWord(w);
  }

  lemma ClassifyEntry(raw: string, t: string, f: seq<string>)
    requires TrimSpace(raw) == t && t != [] && t[0] != '#' && Fields(t) == f && |f| == 2
    ensures ClassifyLine(raw) == Entry(f[0], f[1])
  {
  }

  /** A line holding two words separated by spaces is an address line. */
  lemma EntryLine(a: string, sep: string, b: string)
    requires a != [] && NoSpace(a) && a[0] != '#' && b != [] && NoSpace(b)
    requires sep != [] && AllSpace(sep)
    ensures ClassifyLine(a + sep + b) == Entry(a, b)
  {
    var s := a + sep + b;
    assert s[0] == a[0] && s[|s| - 1] == b[|b| - 1];
    TrimSpaceOfPadded("", s, "");
    assert "" + s + "" == s;
    FieldsOfPair(a, sep, b);
    ClassifyEntry(s, s, [a, b]);
  }

  // ------------------------------------------------- line by line

  lemma Advance(pre: seq<string>, line: string, parseIP: string -> Option<IP>, blank: Domain, p: ParseState, r: ParseState)
    requires blank.weights == [] && ParseLines(pre, parseIP, blank) == p && p.Parsing?
    requires StepLine(p, line, parseIP, blank) == r
    ensures ParseLines(pre + [line], parseIP, blank) == r
  {
    assert (pre + [line])[..|pre|] == pre;
  }

  lemma NewHeader(line: string, parseIP: string -> Option<IP>, blank: Domain, h: string)
    requires h != [] && ClassifyLine(line) == Header(h) && parseIP(h).None?
    ensures StepLine(Parsing(map[], None), line, parseIP, blank) == Parsing(map[Normalize(h) := blank], Some(Normalize(h)))
  {
  }

  lemma AppendEntry(parseIP: string -> Option<IP>, blank: Domain, line: string, a: string, w: string,
                    k: string, ws: seq<WeightItem>)
    requires blank.weights == []
    requires ClassifyLine(line) == Entry(a, w) && parseIP(a).Some? && ParseUint8(w).Some?
    ensures StepLine(Parsing(map[k := blank.(weights := ws)], Some(k)), line, parseIP, blank) ==
            Parsing(map[k := blank.(weights := ws + [WeightItem(parseIP(a).value, ParseUint8(w).value)])], Some(k))
  {
    var m := map[k := blank.(weights := ws)];
    var d := blank.(weights := ws + [WeightItem(parseIP(a).value, ParseUint8(w).value)]);
    assert m[k := d] == map[k := d];
  }

  /** A blank line then a new header: the header's domain is created and
      becomes current. */
  lemma BlankThenHeader(parseIP: string -> Option<IP>, blank: Domain, h: string)
    requires blank.weights == []
    requires h != [] && NoSpace(h) && h[0] != '#' && parseIP(h).None?
    ensures ParseLines(["", h], parseIP, blank) == Parsing(map[Normalize(h) := blank], Some(Normalize(h)))
  {
    var p0 := Parsing(map[], None);
    BlankLine();
    Advance([], "", parseIP, blank, p0, p0);
    assert [] + [""] == [""];
    HeaderLine(h);
    NewHeader(h, parseIP, blank, h);
    Advance([""], h, parseIP, blank, p0, Parsing(map[Normalize(h) := blank], Some(Normalize(h))));
    assert [""] + [h] == ["", h];
  }

  /** An address line under the only domain appends its entry there. */
  lemma ThenEntry(parseIP: string -> Option<IP>, blank: Domain, lines: seq<string>, a: string, w: string,
                  k: string, ws: seq<WeightItem>, p: ParseState, r: ParseState)
    requires blank.weights == [] && lines != [] && ParseLines(lines[..|lines| - 1], parseIP, blank) == p
    requires p == Parsing(map[k := blank.(weights := ws)], Some(k))
    requires ClassifyLine(lines[|lines| - 1]) == Entry(a, w) && parseIP(a).Some? && ParseUint8(w).Some?
    requires r == Parsing(map[k := blank.(weights := ws + [WeightItem(parseIP(a).value, ParseUint8(w).value)])], Some(k))
    ensures ParseLines(lines, parseIP, blank) == r
  {
    AppendEntry(parseIP, blank, lines[|lines| - 1], a, w, k, ws);
  }

  /** A blank line, a header and an address line parse to one domain
      holding that entry. */
  lemma HeaderAndEntry(parseIP: string -> Option<IP>, blank: Domain, h: string, a1: string, w1: string)
    requires blank.weights == []
    requires h != [] && NoSpace(h) && h[0] != '#' && parseIP(h).None?
    requires a1 != [] && NoSpace(a1) && a1[0] != '#' && w1 != [] && NoSpace(w1)
    requires parseIP(a1).Some? && ParseUint8(w1).Some?
    ensures ParseLines(["", h, a1 + " " + w1], parseIP, blank) ==
            Parsing(map[Normalize(h) := blank.(weights := [WeightItem(parseIP(a1).value, ParseUint8(w1).value)])],
                    Some(Normalize(h)))
  {
    var k := Normalize(h);
    var i1 := WeightItem(parseIP(a1).value, ParseUint8(w1).value);
    var lines := ["", h, a1 + " " + w1];
    var p2 := Parsing(map[k := blank.(weights := [])], Some(k));
    BlankThenHeader(parseIP, blank, h);
    assert blank.(weights := []) == blank;
    assert lines[..2] == ["", h];
    EntryLine(a1, " ", w1);
    assert [] + [i1] == [i1];
    ThenEntry(parseIP, blank, lines, a1, w1, k, [], p2, Parsing(map[k := blank.(weights := [i1])], Some(k)));
  }

  /** A blank line, a header and two address lines parse to one domain
      holding the two entries in file order. */
  lemma HeaderAndTwoEntries(parseIP: string -> Option<IP>, blank: Domain, h: string,
                            a1: string, w1: string, a2: string, w2: string)
    requires blank.weights == []
    requires h != [] && NoSpace(h) && h[0] != '#' && parseIP(h).None?
    requires a1 != [] && NoSpace(a1) && a1[0] != '#' && w1 != [] && NoSpace(w1)
    requires a2 != [] && NoSpace(a2) && a2[0] != '#' && w2 != [] && NoSpace(w2)
    requires parseIP(a1).Some? && ParseUint8(w1).Some? && parseIP(a2).Some? && ParseUint8(w2).Some?
    ensures ParseLines(["", h, a1 + " " + w1, a2 + " " + w2], parseIP, blank) ==
            Parsing(map[Normalize(h) := blank.(weights := [WeightItem(parseIP(a1).value, ParseUint8(w1).value),
                                                           WeightItem(parseIP(a2).value, ParseUint8(w2).value)])],
                    Some(Normalize(h)))
  {
    var k := Normalize(h);
    var i1 := WeightItem(parseIP(a1).value, ParseUint8(w1).value);
    var i2 := WeightItem(parseIP(a2).value, ParseUint8(w2).value);
    var lines := ["", h, a1 + " " + w1, a2 + " " + w2];
    HeaderAndEntry(parseIP, blank, h, a1, w1);
    assert lines[..3] == ["", h, a1 + " " + w1];
    EntryLine(a2, " ", w2);
    assert [i1] + [i2] == [i1, i2];
    ThenEntry(parseIP, blank, lines, a2, w2, k, [i1],
              Parsing(map[k := blank.(weights := [i1])], Some(k)), Parsing(map[k := blank.(weights := [i1, i2])], Some(k)));
  }

  const header := "w1,example.org"
  const address15 := "192.168.1.15"
  const address14 := "192.168.1.14"

  /** The weight file `oneDomainWRR`: a blank line, a header and two
      address lines, each written as its words and separators. */
  const oneDomain: string :=
    "\n" + (header + "\n" + ((address15 + " " + "10") + "\n" + ((address14 + " " + "20") + "\n")))

  /** A newline right at the start of the file is an empty first line. */
  lemma LeadingNewline(rest: string)
    ensures ScanLines("\n" + rest) == [""] + ScanLines(rest)
  {
    ScanLinesCons("", rest);
    assert "" + "\n" + rest == "\n" + rest;
  }

  lemma OneDomainLines()
    ensures ScanLines(oneDomain) == ["", header, address15 + " " + "10", address14 + " " + "20"]
  {
    OneDomainWords();
    ThreeLines(header, address15 + " " + "10", address14 + " " + "20");
  }

  lemma OneDomainWords()
    ensures header != [] && NoSpace(header) && header[0] != '#' && Normalize(header) == header + "."
    ensures address15 != [] && NoSpace(address15) && address15[0] != '#'
    ensures address14 != [] && NoSpace(address14) && address14[0] != '#'
    ensures ParseUint8("10") == Some(10) && ParseUint8("20") == Some(20)
    ensures '\n' !in header && '\n' !in address15 + " " + "10" && '\n' !in address14 + " " + "20"
  {
  }

  /** `oneDomainWRR` parses to one domain, `w1,example.org.` with the
      root label added, holding the two entries in file order. */
  lemma OneDomainParse(parseIP: string -> Option<IP>, ip14: IP, ip15: IP)
    requires parseIP(header) == None && parseIP(address15) == Some(ip15) && parseIP(address14) == Some(ip14)
    ensures ParseLines(ScanLines(oneDomain), parseIP, Blank(true)) ==
            Parsing(map[header + "." := Blank(true).(weights := [WeightItem(ip15, 10), WeightItem(ip14, 20)])],
                    Some(header + "."))
  {
    OneDomainLines();
    OneDomainWords();
    HeaderAndTwoEntries(parseIP, Blank(true), header, address15, "10", address14, "20");
  }

  /** Two entries with different weights have one sorted order only. */
  lemma SortedPair(a: WeightItem, b: WeightItem, s: seq<WeightItem>)
    requires a.value < b.value && SortedDesc(s) && multiset(s) == multiset([a, b])
    ensures s == [b, a]
  {
    assert |s| == |multiset(s)| == 2;
    assert s == [s[0], s[1]];
    assert multiset(s) == multiset{s[0], s[1]};
  }

  /** After the reload of `oneDomainWRR` the heavier entry comes first and
      `wsum` is 30; the first top IP is one of the two addresses. */
  lemma OneDomainReload(ip14: IP, ip15: IP, d: Domain, draw: nat)
    requires Reloaded(Blank(true).(weights := [WeightItem(ip15, 10), WeightItem(ip14, 20)]), d, draw)
    ensures d.weights == [WeightItem(ip14, 20), WeightItem(ip15, 10)] && d.wsum == 30 && d.sel == Randomized
    ensures d.topIP == Some(ip14) || d.topIP == Some(ip15)
  {
    SortedPair(WeightItem(ip15, 10), WeightItem(ip14, 20), d.weights);
    var ws := [WeightItem(ip14, 20), WeightItem(ip15, 10)];
    assert Sum(ws) == 30 by {
      var tail := [WeightItem(ip15, 10)];
      assert ws[1..] == tail && tail[1..] == [];
      assert Sum(tail) == 10;
    }
  }

  // ---------------------------------------------------- error files

  /** The first failing line decides the result, whatever follows it. */
  lemma StopsAt(lines: seq<string>, i: nat, parseIP: string -> Option<IP>, blank: Domain, p: ParseState, r: ParseState)
    requires blank.weights == [] && i < |lines| && ParseLines(lines[..i], parseIP, blank) == p && p.Parsing?
    requires StepLine(p, lines[i], parseIP, blank) == r && r.Failed?
    ensures ParseLines(lines, parseIP, blank) == r
  {
    FirstError(lines, i, parseIP, blank);
  }

  lemma AddressAsHeader(p: ParseState, line: string, parseIP: string -> Option<IP>, blank: Domain, h: string)
    requires p.Parsing? && Consistent(p, blank)
    requires ClassifyLine(line) == Header(h) && parseIP(h).Some?
    ensures StepLine(p, line, parseIP, blank) == Failed(p.table, WrongDomainName(h))
  {
  }

  lemma BadEntry(p: ParseState, line: string, parseIP: string -> Option<IP>, blank: Domain, a: string, w: string)
    requires p.Parsing? && Consistent(p, blank) && ClassifyLine(line) == Entry(a, w)
    ensures parseIP(a).None? ==> StepLine(p, line, parseIP, blank) == Failed(p.table, WrongIPAddress(a))
    ensures parseIP(a).Some? && ParseUint8(w).None? ==>
              StepLine(p, line, parseIP, blank) == Failed(p.table, WrongWeightValue(w))
    ensures parseIP(a).Some? && ParseUint8(w).Some? && p.cur.None? ==>
              StepLine(p, line, parseIP, blank) == Failed(p.table, MissingDomainName)
  {
  }

  /** `missingWeightWRR`: an address without a weight is a one-word line,
      hence a header, and an address is not a domain name. */
  const missingWeight: string :=
    "\n" + (header + "\n" + (address14 + "\n" + ((address15 + " " + "20") + "\n")))

  lemma MissingWeightLines()
    ensures ScanLines(missingWeight) == ["", header, address14, address15 + " " + "20"]
  {
    OneDomainWords();
    assert '\n' !in address14 && '\n' !in address15 + " " + "20";
    ThreeLines(header, address14, address15 + " " + "20");
  }

  lemma MissingWeight(parseIP: string -> Option<IP>, blank: Domain)
    requires blank.weights == [] && parseIP(header) == None && parseIP(address14).Some?
    ensures ParseLines(ScanLines(missingWeight), parseIP, blank) ==
            Failed(map[header + "." := blank], WrongDomainName(address14))
  {
    MissingWeightLines();
    OneDomainWords();
    BlankThenHeader(parseIP, blank, header);
    HeaderLine(address14);
    AddressAsHeader(Parsing(map[header + "." := blank], Some(header + ".")), address14, parseIP, blank, address14);
    var lines := ["", header, address14, address15 + " " + "20"];
    assert lines[..2] == ["", header];
    StopsAt(lines, 2, parseIP, blank,
            Parsing(map[header + "." := blank], Some(header + ".")), Failed(map[header + "." := blank], WrongDomainName(address14)));
  }

  /** A file made of an empty line and three more lines, each ended by a
      newline. */
  lemma ThreeLines(l1: string, l2: string, l3: string)
    requires '\n' !in l1 && l1 != [] && l1[|l1| - 1] != '\r'
    requires '\n' !in l2 && l2 != [] && l2[|l2| - 1] != '\r'
    requires '\n' !in l3 && l3 != [] && l3[|l3| - 1] != '\r'
    ensures ScanLines("\n" + (l1 + "\n" + (l2 + "\n" + (l3 + "\n")))) == ["", l1, l2, l3]
  {
    var last := l3 + "\n";
    ScanLinesCons(l3, "");
    assert l3 + "\n" + "" == last;
    assert ScanLines(last) == [l3];
    TwoLinesThen(l1, l2, last);
    assert ["", l1, l2] + [l3] == ["", l1, l2, l3];
  }

  /** A file made of an empty line, two more lines and then `rest`. */
  lemma TwoLinesThen(l1: string, l2: string, rest: string)
    requires '\n' !in l1 && l1 != [] && l1[|l1| - 1] != '\r'
    requires '\n' !in l2 && l2 != [] && l2[|l2| - 1] != '\r'
    ensures ScanLines("\n" + (l1 + "\n" + (l2 + "\n" + rest))) == ["", l1, l2] + ScanLines(rest)
  {
    ScanLinesCons(l2, rest);
    ScanLinesCons(l1, l2 + "\n" + rest);
    LeadingNewline(l1 + "\n" + (l2 + "\n" + rest));
  }

  const badAddress := "192.168.1.300"
  const tooHeavy := "300"
  const comment := "# missing domain"

  lemma ErrorWords()
    ensures badAddress != [] && NoSpace(badAddress) && badAddress[0] != '#'
    ensures comment != [] && comment[0] == '#' && !IsSpace(comment[|comment| - 1]) && '\n' !in comment
    ensures '\n' !in badAddress + " " + "10" && '\n' !in address14 + " " + tooHeavy && '\n' !in address14 + " " + "10"
    ensures tooHeavy != [] && NoSpace(tooHeavy) && ParseUint8(tooHeavy) == None
  {
  }

  /** A line starting with `#` after trimming is a comment. */
  lemma CommentLine(c: string)
    requires c != [] && c[0] == '#' && !IsSpace(c[|c| - 1])
    ensures ClassifyLine(c) == Skip
  {
    TrimSpaceOfPadded("", c, "");
    assert "" + c + "" == c;
  }

  /** `wrongIpWRR`: an address `net.ParseIP` rejects. */
  const wrongIp: string := "\n" + (header + "\n" + ((badAddress + " " + "10") + "\n" + ""))

  lemma WrongIp(parseIP: string -> Option<IP>, blank: Domain)
    requires blank.weights == [] && parseIP(header) == None && parseIP(badAddress) == None
    ensures ParseLines(ScanLines(wrongIp), parseIP, blank) == Failed(map[header + "." := blank], WrongIPAddress(badAddress))
  {
    OneDomainWords();
    ErrorWords();
    TwoLinesThen(header, badAddress + " " + "10", "");
    var lines := ["", header, badAddress + " " + "10"] + ScanLines("");
    assert lines[..2] == ["", header] && lines[2] == badAddress + " " + "10";
    BlankThenHeader(parseIP, blank, header);
    EntryLine(badAddress, " ", "10");
    var p := Parsing(map[header + "." := blank], Some(header + "."));
    BadEntry(p, badAddress + " " + "10", parseIP, blank, badAddress, "10");
    StopsAt(lines, 2, parseIP, blank, p, Failed(map[header + "." := blank], WrongIPAddress(badAddress)));
  }

  /** `wrongWeightWRR`: a weight above 255. */
  const wrongWeight: string := "\n" + (header + "\n" + ((address14 + " " + tooHeavy) + "\n" + ""))

  lemma WrongWeightLines()
    ensures var lines := ScanLines(wrongWeight);
            |lines| == 3 && lines[..2] == ["", header] && lines[2] == address14 + " " + tooHeavy
  {
    OneDomainWords();
    ErrorWords();
    TwoLinesThen(header, address14 + " " + tooHeavy, "");
  }

  lemma WrongWeight(parseIP: string -> Option<IP>, blank: Domain)
    requires blank.weights == [] && parseIP(header) == None && parseIP(address14).Some?
    ensures ParseLines(ScanLines(wrongWeight), parseIP, blank) == Failed(map[header + "." := blank], WrongWeightValue(tooHeavy))
  {
    OneDomainWords();
    ErrorWords();
    WrongWeightLines();
    var lines := ScanLines(wrongWeight);
    BlankThenHeader(parseIP, blank, header);
    EntryLine(address14, " ", tooHeavy);
    var p := Parsing(map[header + "." := blank], Some(header + "."));
    BadEntry(p, address14 + " " + tooHeavy, parseIP, blank, address14, tooHeavy);
    StopsAt(lines, 2, parseIP, blank, p, Failed(map[header + "." := blank], WrongWeightValue(tooHeavy)));
  }

  /** `missingDomainWRR`: an address line before any header. Whatever the
      rest of the file holds, the table stays empty. */
  const missingDomainRest := "w2,example.org\n192.168.2.14 11\n192.168.2.15 12\n"
  const missingDomain: string := "\n" + (comment + "\n" + ((address14 + " " + "10") + "\n" + missingDomainRest))

  lemma MissingDomainLines()
    ensures var lines := ScanLines(missingDomain);
            |lines| > 2 && lines[..2] == ["", comment] && lines[2] == address14 + " " + "10"
  {
    OneDomainWords();
    ErrorWords();
    TwoLinesThen(comment, address14 + " " + "10", missingDomainRest);
  }

  /** A blank line then a comment leave the table empty. */
  lemma BlankThenComment(parseIP: string -> Option<IP>, blank: Domain)
    requires blank.weights == []
    ensures ParseLines(["", comment], parseIP, blank) == Parsing(map[], None)
  {
    var p0 := Parsing(map[], None);
    ErrorWords();
    BlankLine();
    Advance([], "", parseIP, blank, p0, p0);
    assert [] + [""] == [""];
    CommentLine(comment);
    Advance([""], comment, parseIP, blank, p0, p0);
    assert [""] + [comment] == ["", comment];
  }

  lemma MissingDomain(parseIP: string -> Option<IP>, blank: Domain)
    requires blank.weights == [] && parseIP(address14).Some?
    ensures ParseLines(ScanLines(missingDomain), parseIP, blank) == Failed(map[], MissingDomainName)
  {
    OneDomainWords();
    MissingDomainLines();
    var lines := ScanLines(missingDomain);
    var p0 := Parsing(map[], None);
    BlankThenComment(parseIP, blank);
    EntryLine(address14, " ", "10");
    BadEntry(p0, address14 + " " + "10", parseIP, blank, address14, "10");
    StopsAt(lines, 2, parseIP, blank, p0, Failed(map[], MissingDomainName));
  }

  // ------------------------------------------- deterministic selector

  lemma SumOfTwo(a: WeightItem, b: WeightItem)
    ensures Sum([a, b]) == a.value as nat + b.value as nat
  {
    assert [a, b][1..] == [b] && [b][1..] == [];
    assert Sum([b]) == b.value as nat + Sum([]);
  }

  /** The selector of `endpoint.region2.skydns.test` in
      `TestLoadBalanceWRR`, weights 2 and 1: two turns for the first
      address, one for the second, then again. */
  lemma RegionTwoSequence(ip2: IP, ip1: IP)
    ensures var d := Domain([WeightItem(ip2, 2), WeightItem(ip1, 1)], None, 3, Deterministic(0, 0));
            Ready(d) &&
            After(d, 1).topIP == Some(ip2) && After(d, 2).topIP == Some(ip2) && After(d, 3).topIP == Some(ip1) &&
            After(d, 4).topIP == Some(ip2) && After(d, 5).topIP == Some(ip2)
  {
    var ws := [WeightItem(ip2, 2), WeightItem(ip1, 1)];
    SumOfTwo(ws[0], ws[1]);
    var d := Domain(ws, None, 3, Deterministic(0, 0));
    assert After(d, 1) == Domain(ws, Some(ip2), 3, Deterministic(0, 1));
    assert After(d, 2) == Domain(ws, Some(ip2), 3, Deterministic(1, 0));
    assert After(d, 3) == Domain(ws, Some(ip1), 3, Deterministic(0, 0));
    assert After(d, 4) == Domain(ws, Some(ip2), 3, Deterministic(0, 1));
    assert After(d, 5) == Domain(ws, Some(ip2), 3, Deterministic(1, 0));
  }

  /** The selector of `endpoint.region1.skydns.test`, weights 3 and 2:
      three turns for the first address, then the second. */
  lemma RegionOneSequence(ip2: IP, ip1: IP)
    ensures var d := Domain([WeightItem(ip2, 3), WeightItem(ip1, 2)], None, 5, Deterministic(0, 0));
            Ready(d) &&
            After(d, 1).topIP == Some(ip2) && After(d, 2).topIP == Some(ip2) && After(d, 3).topIP == Some(ip2) &&
            After(d, 4).topIP == Some(ip1)
  {
    var ws := [WeightItem(ip2, 3), WeightItem(ip1, 2)];
    SumOfTwo(ws[0], ws[1]);
    var d := Domain(ws, None, 5, Deterministic(0, 0));
    assert After(d, 1) == Domain(ws, Some(ip2), 5, Deterministic(0, 1));
    assert After(d, 2) == Domain(ws, Some(ip2), 5, Deterministic(0, 2));
    assert After(d, 3) == Domain(ws, Some(ip2), 5, Deterministic(1, 0));
    assert After(d, 4) == Domain(ws, Some(ip1), 5, Deterministic(1, 1));
  }
}
