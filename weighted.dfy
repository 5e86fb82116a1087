/** The weighted round robin state of plugin/loadbalance/weighted.go: the
    domain table, the digest of the last weight file, its reload and the
    reordering of answers. Each method is one atomic step (the source runs
    them under one mutex). */
module Weighted {
  import opened Wrappers
  import opened Net
  import opened Text
  import opened Weights
  import opened Parser
  import opened Reorder

  /** What reading the weight file gave: `os.Open` failed, `io.ReadAll`
      failed, or the file's contents. */
  datatype FileRead = OpenFailed | ReadFailed | Contents(text: string)

  /** The errors `updateWeights` returns: `errOpen` (setup.go), the read
      error, and a grammar violation. */
  datatype ReloadError = ErrOpen | ErrRead | ErrParse(error: ParseError)

  /** The end of a reload: a nil error, an error, or a run-time panic in the
      selector of the named domain (the process does not survive it). */
  datatype Outcome = Ok | Error(error: ReloadError) | Panic(domain: string)

  /** A parsed domain `p` as `updateWeights` leaves it before running its
      selector: its weights sorted non-increasingly (a permutation of the
      parsed ones) and their sum added to `wsum`. */
  predicate Prepared(p: Domain, d: Domain) {
    multiset(d.weights) == multiset(p.weights) && SortedDesc(d.weights) &&
    d == p.(weights := d.weights, wsum := p.wsum + Sum(d.weights))
  }

  /** A parsed domain `p` as `updateWeights` leaves it: prepared, then with
      its first expected top IP computed from `draw`. */
  predicate Reloaded(p: Domain, d: Domain, draw: nat) {
    var q := p.(weights := d.weights, wsum := p.wsum + Sum(d.weights));
    Prepared(p, q) && Ready(q) && d == NextTop(q, draw)
  }

  /** Whether the selector of a parsed domain can run: `rn.Intn` needs a
      positive weight sum, and the deterministic selector a non-empty
      list. */
  predicate Selectable(p: Domain) {
    if p.sel.Randomized? then p.wsum + Sum(p.weights) > 0 else |p.weights| > 0
  }

  /** A freshly parsed domain can run its selector exactly when it is
      ready once prepared: under the randomized selector that takes a
      positive weight sum, the bound `rn.Intn` needs. */
  lemma SelectableReady(p: Domain, d: Domain)
    requires p.wsum == 0 && (p.sel.Deterministic? ==> p.sel == Deterministic(0, 0))
    requires Prepared(p, d)
    ensures Selectable(p) <==> Ready(d)
  {
    SumPermutation(d.weights, p.weights);
  }

  /** Whether `setTopRecord` applies: the domain is known, has weights, and
      one of the address records carries its expected top IP. */
  predicate Hit(domains: map<string, Domain>, qname: string, address: seq<Record>) {
    qname in domains && |domains[qname].weights| > 0 && FirstMatch(address, domains[qname].topIP) >= 0
  }

  /** The body of the domain loop of `updateWeights` for one freshly parsed
      domain: sort, accumulate `wsum`, then run the selector once; `ok` is
      false where the selector would panic, and the domain is then left
      prepared but without a top IP. */
  method ReloadDomain(p: Domain, draw: nat) returns (d: Domain, ok: bool)
    requires p.wsum == 0 && p.topIP.None? && (p.sel.Deterministic? ==> p.sel == Deterministic(0, 0))
    ensures ok == Selectable(p)
    ensures ok ==> Reloaded(p, d, draw) && d.topIP.Some?
    ensures !ok ==> Prepared(p, d) && d.topIP.None?
  {
    var sorted := SortByWeight(p.weights);
    var wsum := AccumulateWeights(p.wsum, sorted);
    d := p.(weights := sorted, wsum := wsum);
    SumPermutation(sorted, p.weights);
    if (d.sel.Randomized? && d.wsum == 0) || (d.sel.Deterministic? && |d.weights| == 0) {
      return d, false;
    }
    d := NextTopIP(d, draw);
    ok := true;
  }

  /** Every domain with an expected top IP can run its selector. */
  predicate TableReady(t: Table) {
    forall k | k in t :: t[k].topIP.Some? ==> Ready(t[k])
  }

  /** A freshly parsed table: no sums, no top IPs, selectors at rest. */
  predicate Fresh(t: Table) {
    forall k | k in t :: t[k].wsum == 0 && t[k].topIP.None? &&
      (t[k].sel.Deterministic? ==> t[k].sel == Deterministic(0, 0))
  }

  /** How the domain loop of `updateWeights` leaves the parsed table
      `parsed`: with every domain reloaded when all selectors can run
      (outcome `Ok`), or else stopped by the panic of one that cannot, which
      is left prepared, every other domain either reloaded or untouched. */
  predicate Reload(parsed: Table, domains: Table, draw: string -> nat, outcome: Outcome) {
    domains.Keys == parsed.Keys && TableReady(domains) &&
    match outcome
    case Ok =>
      (forall k | k in parsed :: Selectable(parsed[k])) &&
      (forall k | k in domains :: Reloaded(parsed[k], domains[k], draw(k)))
    case Panic(name) =>
      name in parsed && !Selectable(parsed[name]) &&
      Prepared(parsed[name], domains[name]) && domains[name].topIP.None? &&
      forall k | k in domains && k != name ::
        domains[k] == parsed[k] || (Selectable(parsed[k]) && Reloaded(parsed[k], domains[k], draw(k)))
    case Error(_) => false
  }

  /** The state of the domain loop with `todo` still to visit. */
  predicate Pass(parsed: Table, domains: Table, draw: string -> nat, todo: set<string>) {
    Fresh(parsed) && todo <= domains.Keys && domains.Keys == parsed.Keys && TableReady(domains) &&
    (forall k | k in todo :: domains[k] == parsed[k]) &&
    (forall k | k in domains && k !in todo :: Selectable(parsed[k]) && Reloaded(parsed[k], domains[k], draw(k)))
  }

  lemma PassStep(parsed: Table, domains: Table, draw: string -> nat, todo: set<string>, name: string, d: Domain)
    requires Pass(parsed, domains, draw, todo) && name in todo
    requires Selectable(domains[name]) && Reloaded(domains[name], d, draw(name))
    ensures Pass(parsed, domains[name := d], draw, todo - {name})
  {
  }

  lemma PassPanics(parsed: Table, domains: Table, draw: string -> nat, todo: set<string>, name: string, d: Domain)
    requires Pass(parsed, domains, draw, todo) && name in todo
    requires !Selectable(domains[name]) && Prepared(domains[name], d) && d.topIP.None?
    ensures Reload(parsed, domains[name := d], draw, Panic(name))
  {
  }

  lemma PassEnds(parsed: Table, domains: Table, draw: string -> nat)
    requires Pass(parsed, domains, draw, {})
    ensures Reload(parsed, domains, draw, Ok)
  {
  }

  class WeightedRR {
    /** Whether new domains get the randomized selector. */
    const isRandom: bool
    /** `net.ParseIP`, a foreign function given at construction. */
    const parseIP: string -> Option<IP>
    /** The contents the digest was last taken of; `None` matches no file. */
    var digest: Option<string>
    var domains: map<string, Domain>

    /** A domain with an expected top IP can run its selector. */
    ghost predicate Valid()
      reads this
    {
      TableReady(domains)
    }

    constructor (isRandom: bool, parseIP: string -> Option<IP>)
      ensures Valid()
      ensures this.isRandom == isRandom && this.parseIP == parseIP
      ensures digest == None && domains == map[]
    {
      this.isRandom := isRandom;
      this.parseIP := parseIP;
      digest := None;
      domains := map[];
    }

    /** The result of parsing the weight file `text`. */
    function Parse(text: string): ParseState {
      ParseLines(ScanLines(text), parseIP, Blank(isRandom))
    }

    /** One iteration of the scanner loop of `parseWeights`: a blank or
        comment line is skipped, a header makes its (normalised) domain
        current, creating it if new, an address line appends to the current
        domain; an offending line leaves the table as it is and reports its
        error. */
    method ParseLine(line: string, curd: Option<string>) returns (next: Option<string>, err: Option<ParseError>)
      requires Consistent(Parsing(domains, curd), Blank(isRandom))
      modifies this`domains
      ensures StepLine(Parsing(old(domains), curd), line, parseIP, Blank(isRandom))
              == if err.Some? then Failed(domains, err.value) else Parsing(domains, next)
    {
      next, err := curd, None;
      var nextLine := TrimSpace(line);
      if |nextLine| == 0 || nextLine[0] == '#' {
        return;
      }
      var fields := Fields(nextLine);
      if |fields| == 1 {
        next, err := ParseHeader(line, fields[0], curd);
      } else if |fields| == 2 {
        next, err := ParseEntry(line, fields[0], fields[1], curd);
      } else {
        return curd, Some(CouldNotParseLine(nextLine));
      }
    }

    /** The header branch of the loop: an IP address is not a domain name;
        otherwise the name, with the root label added, becomes current. */
    method ParseHeader(line: string, name: string, curd: Option<string>) returns (next: Option<string>, err: Option<ParseError>)
      requires ClassifyLine(line) == Header(name)
      requires Consistent(Parsing(domains, curd), Blank(isRandom))
      modifies this`domains
      ensures StepLine(Parsing(old(domains), curd), line, parseIP, Blank(isRandom))
              == if err.Some? then Failed(domains, err.value) else Parsing(domains, next)
    {
      var dname := name;
      if parseIP(dname).Some? {
        return curd, Some(WrongDomainName(dname));
      }
      if dname[|dname| - 1] != '.' {
        dname := dname + ".";
      }
      if dname !in domains {
        domains := domains[dname := Blank(isRandom)];
      }
      next, err := Some(dname), None;
    }

    /** The address branch of the loop: the address, then the weight, then
        the presence of a current domain are checked, and the item is
        appended to the current domain. */
    method ParseEntry(line: string, address: string, weight: string, curd: Option<string>)
      returns (next: Option<string>, err: Option<ParseError>)
      requires ClassifyLine(line) == Entry(address, weight)
      requires Consistent(Parsing(domains, curd), Blank(isRandom))
      modifies this`domains
      ensures StepLine(Parsing(old(domains), curd), line, parseIP, Blank(isRandom))
              == if err.Some? then Failed(domains, err.value) else Parsing(domains, next)
    {
      var ip := parseIP(address);
      if ip.None? {
        return curd, Some(WrongIPAddress(address));
      }
      var w := ParseUint8(weight);
      if w.None? {
        return curd, Some(WrongWeightValue(weight));
      }
      var witem := WeightItem(ip.value, w.value);
      if curd.None? {
        return curd, Some(MissingDomainName);
      }
      var d := domains[curd.value];
      domains := domains[curd.value := d.(weights := d.weights + [witem])];
      next, err := curd, None;
    }

    /** `parseWeights`: the table is reset, then filled line by line; on the
        first offending line the error is returned and the table built so far
        stays in place. */
    method ParseWeights(text: string) returns (err: Option<ParseError>)
      modifies this`domains
      ensures domains == Parse(text).table
      ensures err == if Parse(text).Failed? then Some(Parse(text).error) else None
    {
      domains := map[];
      var lines := ScanLines(text);
      var blank := Blank(isRandom);
      var curd: Option<string> := None;
      var i := 0;
      while i < |lines|
        invariant 0 <= i <= |lines|
        invariant ParseLines(lines[..i], parseIP, blank) == Parsing(domains, curd)
      {
        ParseLinesStep(lines, i, parseIP, blank);
        var next, e := ParseLine(lines[i], curd);
        if e.Some? {
          FirstError(lines, i, parseIP, blank);
          assert ParseLines(lines, parseIP, blank) == Failed(domains, e.value);
          return e;
        }
        curd := next;
        i := i + 1;
      }
      assert lines[..i] == lines;
      err := None;
    }

    /** `readWeightFile`: reading errors change nothing; contents equal to the
        last digested ones are "unchanged, no error"; otherwise the digest is
        stored first and the contents parsed. */
    method ReadWeightFile(file: FileRead) returns (changed: bool, err: Option<ReloadError>)
      modifies this`digest, this`domains
      ensures file.OpenFailed? ==> !changed && err == Some(ErrOpen) && digest == old(digest) && domains == old(domains)
      ensures file.ReadFailed? ==> !changed && err == Some(ErrRead) && digest == old(digest) && domains == old(domains)
      ensures file.Contents? && old(digest) == Some(file.text) ==>
                !changed && err == None && digest == old(digest) && domains == old(domains)
      ensures file.Contents? && old(digest) != Some(file.text) ==>
                var p := Parse(file.text);
                changed && digest == Some(file.text) && domains == p.table &&
                err == if p.Failed? then Some(ErrParse(p.error)) else None
    {
      match file {
        case OpenFailed =>
          return false, Some(ErrOpen);
        case ReadFailed =>
          return false, Some(ErrRead);
        case Contents(text) =>
          if digest == Some(text) {
            return false, None;
          }
          digest := Some(text);
          var e := ParseWeights(text);
          changed := true;
          err := if e.Some? then Some(ErrParse(e.value)) else None;
      }
    }

    /** `updateWeights`: read the file; when it changed and parsed, sort each
        domain's weights, accumulate `wsum` and compute the first expected
        top IP, visiting the domains in an unspecified order. `draw(k)` is
        the random draw for domain `k`. */
    method UpdateWeights(file: FileRead, draw: string -> nat) returns (outcome: Outcome)
      requires Valid()
      modifies this`digest, this`domains
      ensures Valid()
      ensures file.OpenFailed? ==> outcome == Error(ErrOpen) && digest == old(digest) && domains == old(domains)
      ensures file.ReadFailed? ==> outcome == Error(ErrRead) && digest == old(digest) && domains == old(domains)
      ensures file.Contents? && old(digest) == Some(file.text) ==>
                outcome == Ok && digest == old(digest) && domains == old(domains)
      ensures file.Contents? && old(digest) != Some(file.text) ==>
                var p := Parse(file.text);
                digest == Some(file.text) &&
                (p.Failed? ==> outcome == Error(ErrParse(p.error)) && domains == p.table) &&
                (p.Parsing? ==> Reload(p.table, domains, draw, outcome))
    {
      var changed, err := ReadWeightFile(file);
      if err.Some? {
        return Error(err.value);
      }
      if !changed {
        return Ok;
      }
      assert Consistent(Parse(file.text), Blank(isRandom));
      assert Fresh(domains);
      outcome := ReloadAll(draw);
    }

    /** The domain loop of `updateWeights` over a freshly parsed table. */
    method ReloadAll(draw: string -> nat) returns (outcome: Outcome)
      requires Fresh(domains)
      modifies this`domains
      ensures Reload(old(domains), domains, draw, outcome)
    {
      ghost var parsed := domains;
      var todo := domains.Keys;
      while todo != {}
        invariant Pass(parsed, domains, draw, todo)
        decreases todo
      {
        var name :| name in todo;
        var d, ok := ReloadDomain(domains[name], draw(name));
        if !ok {
          PassPanics(parsed, domains, draw, todo, name, d);
          domains := domains[name := d];
          return Panic(name);
        }
        PassStep(parsed, domains, draw, todo, name, d);
        domains := domains[name := d];
        todo := todo - {name};
      }
      PassEnds(parsed, domains, draw);
      return Ok;
    }

    /** `setTopRecord`: when the domain is known, has weights and one address
        record carries its expected top IP, the first such record is swapped
        to index 0 and the selector advances; otherwise nothing changes. */
    method SetTopRecord(qname: string, address: array<Record>, draw: nat) returns (ok: bool)
      requires Valid()
      modifies this`domains, address
      ensures Valid()
      ensures ok == Hit(old(domains), qname, old(address[..]))
      ensures !ok ==> domains == old(domains) && address[..] == old(address[..])
      ensures ok ==>
                var d := old(domains)[qname];
                Ready(d) && address[..] == SwapToFront(old(address[..]), FirstMatch(old(address[..]), d.topIP)) &&
                domains == old(domains)[qname := NextTop(d, draw)]
    {
      if qname !in domains || |domains[qname].weights| == 0 {
        return false;
      }
      var curd := domains[qname];
      var itop := FindTop(address, curd.topIP);
      if itop == -1 {
        return false;
      }
      if itop != 0 {
        address[0], address[itop] := address[itop], address[0];
      }
      var next := NextTopIP(curd, draw);
      domains := domains[qname := next];
      ok := true;
    }

    /** `weightedRoundRobin`: the answer is returned as it came unless
        `setTopRecord` applies to its address records; then it is rebuilt as
        CNAME, other, address (expected top first) and MX records. */
    method WeightedRoundRobin(qname: string, records: seq<Record>, draw: nat) returns (out: seq<Record>)
      requires Valid()
      modifies this`domains
      ensures Valid()
      ensures |out| == |records| && multiset(out) == multiset(records)
      ensures var address := Bucket(records, Address);
              if Hit(old(domains), qname, address) then
                var d := old(domains)[qname];
                Ready(d) && out == Arrange(records, FirstMatch(address, d.topIP)) &&
                domains == old(domains)[qname := NextTop(d, draw)]
              else
                out == records && domains == old(domains)
    {
      var cname, address, mx, rest := Split(records);
      if |address| == 0 {
        return records;
      }
      var arr := new Record[|address|](j requires 0 <= j < |address| => address[j]);
      assert arr[..] == address;
      var ok := SetTopRecord(qname, arr, draw);
      if !ok {
        return records;
      }
      out := cname + rest + arr[..] + mx;
      ArrangeIsPermutation(records, FirstMatch(address, old(domains)[qname].topIP));
    }
  }
}
