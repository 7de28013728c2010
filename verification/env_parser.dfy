/**
 * `parseEnvContentToObject`: the `.env` text of a file turned into an object
 * of secrets. Lines are scanned one by one for multi-line certificate
 * blocks, which are recognised only by the substrings `-----BEGIN` and
 * `-----END` (the encapsulation boundaries of section 2 of RFC 7468 contain
 * them). Every other line of the form `KEY=VALUE` becomes an entry, and the
 * certificate blocks are written over the entries last.
 */
module EnvParser {
  import opened Common
  import opened JsObjects

  const BeginMarker := "-----BEGIN"
  const EndMarker := "-----END"

  /** A finished certificate block: the name before `=` on its BEGIN line and its whole text. */
  datatype CertKey = CertKey(name: string, value: string)

  /** `currentCertKey`: the block being collected, when `collecting` holds. */
  datatype OpenCert = OpenCert(name: string, value: string, collecting: bool)

  const Idle := OpenCert("", "", false)

  /** What the first pass has produced so far: the lines left for the second pass, the finished blocks, the open block. */
  datatype Scan = Scan(modified: seq<string>, certs: seq<CertKey>, current: OpenCert)

  // ---------------------------------------------------------------------
  // First pass: certificate blocks
  // ---------------------------------------------------------------------

  /** `nameBegin[1]` rendered by a template: the text after the first `=`, or "undefined" when there is none. */
  function AfterFirstEquals(parts: seq<string>): string
  {
    if |parts| >= 2 then parts[1] else "undefined"
  }

  /** One line of the first pass. A line that belongs to a block is replaced by "". */
  function ScanLine(s: Scan, line: string): Scan
  {
    if Contains(line, BeginMarker) then
      var nameBegin := Split(line, '=');
      Scan(s.modified + [""], s.certs, OpenCert(nameBegin[0], AfterFirstEquals(nameBegin), true))
    else if Contains(line, EndMarker) then
      Scan(s.modified + [""], s.certs + [CertKey(s.current.name, s.current.value + "\n" + line)], Idle)
    else if s.current.collecting then
      Scan(s.modified + [""], s.certs, s.current.(value := s.current.value + "\n" + line))
    else
      Scan(s.modified + [line], s.certs, s.current)
  }

  /** The first pass over the lines, in order. */
  function ScanLines(lines: seq<string>): (s: Scan)
    ensures |s.modified| == |lines|
    decreases |lines|
  {
    if |lines| == 0 then Scan([], [], Idle)
    else ScanLine(ScanLines(lines[..|lines| - 1]), lines[|lines| - 1])
  }

  // ---------------------------------------------------------------------
  // Second pass: ordinary lines
  // ---------------------------------------------------------------------

  /** A piece that is not the last one loses the `\r` that stood before its line break. */
  function DropCr(piece: string): string
  {
    if |piece| > 0 && piece[|piece| - 1] == '\r' then piece[..|piece| - 1] else piece
  }

  /** `s.split(/\r?\n/)`. */
  function SplitLines(s: string): (lines: seq<string>)
    ensures |lines| >= 1
  {
    var parts := Split(s, '\n');
    seq(|parts|, i requires 0 <= i < |parts| => if i < |parts| - 1 then DropCr(parts[i]) else parts[i])
  }

  predicate NotBlank(line: string)
  {
    Trim(line) != ""
  }

  /** `restructuredData`: the remaining lines rejoined, trimmed, split again and stripped of blank lines. */
  function Restructure(modified: seq<string>): (lines: seq<string>)
    ensures forall line :: line in lines ==> NotBlank(line)
  {
    var r := Filter(SplitLines(Trim(JoinWith(modified, "\n"))), NotBlank);
    forall line | line in r
      ensures NotBlank(line)
    {
      FilterMembership(SplitLines(Trim(JoinWith(modified, "\n"))), NotBlank, line);
    }
    r
  }

  /** The entry one line stands for: the key is the text before the first `=`, untrimmed, the value the text up to the second `=`. */
  function LineEntry(line: string): Option<Entry>
  {
    var keyAndValue := Split(line, '=');
    if !StartsWith(Trim(keyAndValue[0]), "#") && |keyAndValue| >= 2 then Some(Entry(keyAndValue[0], keyAndValue[1]))
    else None
  }

  /** The entries of the lines that stand for one, in line order. */
  function LineEntries(lines: seq<string>): seq<Entry>
    decreases |lines|
  {
    if |lines| == 0 then []
    else
      var init := LineEntries(lines[..|lines| - 1]);
      match LineEntry(lines[|lines| - 1])
      case Some(e) => init + [e]
      case None => init
  }

  // ---------------------------------------------------------------------
  // Certificate entries
  // ---------------------------------------------------------------------

  /**
   * The filter on `certKeys`: a block is kept unless its value trims to "".
   * The filter also tests `x.key`, a property a block does not have, and
   * `undefined` is never equal to "", so that half always passes.
   */
  predicate KeepCert(c: CertKey)
  {
    Trim(c.value) != ""
  }

  /** The entries the kept blocks stand for: those whose trimmed name does not start with `#`. */
  function CertEntries(certs: seq<CertKey>): seq<Entry>
    decreases |certs|
  {
    if |certs| == 0 then []
    else
      var init := CertEntries(certs[..|certs| - 1]);
      var c := certs[|certs| - 1];
      if !StartsWith(Trim(c.name), "#") then init + [Entry(c.name, c.value)] else init
  }

  /** The object `parseEnvContentToObject` returns. */
  function ParseEnv(text: string): Dict
  {
    var scan := ScanLines(Split(text, '\n'));
    var ordinary := PutAll([], LineEntries(Restructure(scan.modified)));
    PutAll(ordinary, CertEntries(Filter(scan.certs, KeepCert)))
  }

  method ParseEnvContentToObject(envFileContent: string) returns (parsedJSON: Dict)
    ensures parsedJSON == ParseEnv(envFileContent)
    ensures DistinctKeys(parsedJSON)
  {
    var lines := Split(envFileContent, '\n');
    var modifiedData, certKeys := ScanEnvLines(lines);
    var restructuredData := Restructure(modifiedData);
    parsedJSON := AssignLines(restructuredData);
    var ordinary := parsedJSON;
    certKeys := Filter(certKeys, KeepCert);
    parsedJSON := AssignCerts(parsedJSON, certKeys);
    PutAllDistinct([], LineEntries(restructuredData));
    PutAllDistinct(ordinary, CertEntries(certKeys));
  }

  /** The first pass: blocks are collected and every line is kept, or replaced by "" when it belongs to a block. */
  method ScanEnvLines(lines: seq<string>) returns (modifiedData: seq<string>, certKeys: seq<CertKey>)
    ensures modifiedData == ScanLines(lines).modified && certKeys == ScanLines(lines).certs
  {
    certKeys := [];
    var currentCertKey := Idle;
    modifiedData := [];
    var i := 0;
    while i < |lines|
      invariant 0 <= i <= |lines|
      invariant ScanLines(lines[..i]) == Scan(modifiedData, certKeys, currentCertKey)
    {
      var keyAndValue := lines[i];
      if Contains(keyAndValue, BeginMarker) {
        var nameBegin := Split(keyAndValue, '=');
        currentCertKey := OpenCert(nameBegin[0], AfterFirstEquals(nameBegin), true);
        modifiedData := modifiedData + [""];
      } else if Contains(keyAndValue, EndMarker) {
        certKeys := certKeys + [CertKey(currentCertKey.name, currentCertKey.value + "\n" + keyAndValue)];
        currentCertKey := Idle;
        modifiedData := modifiedData + [""];
      } else if currentCertKey.collecting {
        currentCertKey := currentCertKey.(value := currentCertKey.value + "\n" + keyAndValue);
        modifiedData := modifiedData + [""];
      } else {
        modifiedData := modifiedData + [keyAndValue];
      }
      assert lines[..i + 1][..i] == lines[..i];
      i := i + 1;
    }
    assert lines[..i] == lines;
  }

  /** The second pass: each remaining line that stands for an entry is assigned into the object. */
  method AssignLines(restructuredData: seq<string>) returns (parsedJSON: Dict)
    ensures parsedJSON == PutAll([], LineEntries(restructuredData))
  {
    parsedJSON := [];
    var j := 0;
    while j < |restructuredData|
      invariant 0 <= j <= |restructuredData|
      invariant parsedJSON == PutAll([], LineEntries(restructuredData[..j]))
    {
      var keyAndValue := Split(restructuredData[j], '=');
      assert restructuredData[..j + 1][..j] == restructuredData[..j];
      if !StartsWith(Trim(keyAndValue[0]), "#") && |keyAndValue| >= 2 {
        PutAllAppend([], LineEntries(restructuredData[..j]), [Entry(keyAndValue[0], keyAndValue[1])]);
        parsedJSON := Put(parsedJSON, keyAndValue[0], keyAndValue[1]);
      }
      j := j + 1;
    }
    assert restructuredData[..j] == restructuredData;
  }

  /** The last pass: each kept block whose trimmed name does not start with `#` is assigned over the ordinary entries. */
  method AssignCerts(ordinary: Dict, certKeys: seq<CertKey>) returns (parsedJSON: Dict)
    ensures parsedJSON == PutAll(ordinary, CertEntries(certKeys))
  {
    parsedJSON := ordinary;
    var k := 0;
    while k < |certKeys|
      invariant 0 <= k <= |certKeys|
      invariant parsedJSON == PutAll(ordinary, CertEntries(certKeys[..k]))
    {
      var data := certKeys[k];
      assert certKeys[..k + 1][..k] == certKeys[..k];
      if !StartsWith(Trim(data.name), "#") {
        PutAllAppend(ordinary, CertEntries(certKeys[..k]), [Entry(data.name, data.value)]);
        parsedJSON := Put(parsedJSON, data.name, data.value);
      }
      k := k + 1;
    }
    assert certKeys[..k] == certKeys;
  }

  // ---------------------------------------------------------------------
  // Properties
  // ---------------------------------------------------------------------

  /**
   * A line stands for an entry exactly when it holds an `=` and the text
   * before the first `=`, trimmed, does not start with `#`; the key is that
   * text untrimmed and the value is what lies between the first and the
   * second `=` (or the end of the line).
   */
  lemma LineEntryShape(line: string)
    ensures var f := FirstIndex(line, '=');
      LineEntry(line).Some? <==> f < |line| && !StartsWith(Trim(line[..f]), "#")
    ensures var f := FirstIndex(line, '=');
      LineEntry(line).Some? ==>
        var rest := line[f + 1..];
        LineEntry(line).value == Entry(line[..f], rest[..FirstIndex(rest, '=')])
  {
    var f := FirstIndex(line, '=');
    SplitAtFirst(line, '=');
    if f < |line| {
      SplitAtFirst(line[f + 1..], '=');
    }
  }

  /** Among ordinary lines, the last line with a key decides its value. */
  lemma OrdinaryLastWins(lines: seq<string>, k: string)
    ensures Get(PutAll([], LineEntries(lines)), k) == LastValue(LineEntries(lines), k)
  {
    PutAllGet([], LineEntries(lines), k);
  }

  /** A certificate block wins over an ordinary line with the same name; otherwise the last ordinary line decides. */
  lemma ParseEnvGet(text: string, k: string)
    ensures var scan := ScanLines(Split(text, '\n'));
      var certs := CertEntries(Filter(scan.certs, KeepCert));
      var ordinary := LineEntries(Restructure(scan.modified));
      Get(ParseEnv(text), k) == if LastValue(certs, k).Some? then LastValue(certs, k) else LastValue(ordinary, k)
  {
    var scan := ScanLines(Split(text, '\n'));
    var ordinary := LineEntries(Restructure(scan.modified));
    PutAllGet(PutAll([], ordinary), CertEntries(Filter(scan.certs, KeepCert)), k);
    PutAllGet([], ordinary, k);
  }

  /** The lines inside an open block, none of which holds either marker. */
  predicate Inner(mid: seq<string>)
  {
    forall i :: 0 <= i < |mid| ==> !Contains(mid[i], BeginMarker) && !Contains(mid[i], EndMarker)
  }

  function Blanks(n: nat): (r: seq<string>)
    ensures |r| == n && forall i :: 0 <= i < n ==> r[i] == ""
  {
    seq(n, i => "")
  }

  lemma BlanksSnoc(n: nat)
    ensures Blanks(n) + [""] == Blanks(n + 1)
  {
    assert forall i :: 0 <= i < n + 1 ==> (Blanks(n) + [""])[i] == "";
  }

  lemma BlankTail(m: seq<string>, n: nat)
    ensures (m + Blanks(n)) + [""] == m + Blanks(n + 1)
  {
    BlanksSnoc(n);
  }

  lemma ScanAppendOne(lines: seq<string>, x: string)
    ensures ScanLines(lines + [x]) == ScanLine(ScanLines(lines), x)
  {
    assert (lines + [x])[..|lines|] == lines;
  }

  /** After a BEGIN line, inner lines are appended to the open block, each after a line break, and leave "" behind. */
  lemma {:induction false} ScanOpenBlock(pre: seq<string>, begin: string, mid: seq<string>)
    requires Contains(begin, BeginMarker) && Inner(mid)
    ensures var s := ScanLines(pre);
      var nameBegin := Split(begin, '=');
      ScanLines(pre + [begin] + mid)
        == Scan(s.modified + Blanks(1 + |mid|), s.certs,
                OpenCert(nameBegin[0], JoinWith([AfterFirstEquals(nameBegin)] + mid, "\n"), true))
    decreases |mid|
  {
    if |mid| == 0 {
      assert pre + [begin] + mid == pre + [begin];
      ScanAppendOne(pre, begin);
    } else {
      var init := mid[..|mid| - 1];
      var x := mid[|mid| - 1];
      assert Inner(init);
      ScanOpenBlock(pre, begin, init);
      assert pre + [begin] + mid == (pre + [begin] + init) + [x];
      ScanAppendOne(pre + [begin] + init, x);
      var nameBegin := Split(begin, '=');
      assert [AfterFirstEquals(nameBegin)] + mid == ([AfterFirstEquals(nameBegin)] + init) + [x];
      JoinAppend([AfterFirstEquals(nameBegin)] + init, x, "\n");
      BlanksSnoc(1 + |init|);
    }
  }

  lemma CloseBlock(t: Scan, end: string)
    requires Contains(end, EndMarker) && !Contains(end, BeginMarker)
    ensures ScanLine(t, end) == Scan(t.modified + [""], t.certs + [CertKey(t.current.name, t.current.value + "\n" + end)], Idle)
  {
  }

  /**
   * A block from a BEGIN line to the next END line becomes one certificate:
   * its value is the text after `=` on the BEGIN line followed by every
   * later line of the block, END line included, each after a line break;
   * every line of the block leaves "" for the second pass, and no block is
   * open afterwards.
   */
  lemma Block(pre: seq<string>, begin: string, mid: seq<string>, end: string)
    requires Contains(begin, BeginMarker) && Inner(mid)
    requires Contains(end, EndMarker) && !Contains(end, BeginMarker)
    ensures var s := ScanLines(pre);
      var nameBegin := Split(begin, '=');
      ScanLines(pre + [begin] + mid + [end])
        == Scan(s.modified + Blanks(2 + |mid|),
                s.certs + [CertKey(nameBegin[0], JoinWith([AfterFirstEquals(nameBegin)] + mid + [end], "\n"))],
                Idle)
  {
    var s := ScanLines(pre);
    var nameBegin := Split(begin, '=');
    var head := [AfterFirstEquals(nameBegin)] + mid;
    var t := ScanLines(pre + [begin] + mid);
    var u := ScanLines(pre + [begin] + mid + [end]);
    assert t == Scan(s.modified + Blanks(1 + |mid|), s.certs, OpenCert(nameBegin[0], JoinWith(head, "\n"), true)) by {
      ScanOpenBlock(pre, begin, mid);
    }
    assert u == Scan(t.modified + [""], t.certs + [CertKey(t.current.name, t.current.value + "\n" + end)], Idle) by {
      ScanAppendOne(pre + [begin] + mid, end);
      CloseBlock(t, end);
    }
    assert JoinWith(head, "\n") + "\n" + end == JoinWith([AfterFirstEquals(nameBegin)] + mid + [end], "\n") by {
      JoinAppend(head, end, "\n");
      assert head + [end] == [AfterFirstEquals(nameBegin)] + mid + [end];
    }
    BlanksSnoc(1 + |mid|);
    BlankTail(s.modified, 1 + |mid|);
    assert u.certs == s.certs + [CertKey(nameBegin[0], JoinWith([AfterFirstEquals(nameBegin)] + mid + [end], "\n"))];
  }

  /** An END line with no block open still yields a certificate, with an empty name. */
  lemma StrayEnd(lines: seq<string>, end: string)
    requires ScanLines(lines).current == Idle
    requires Contains(end, EndMarker) && !Contains(end, BeginMarker)
    ensures ScanLines(lines + [end]).certs == ScanLines(lines).certs + [CertKey("", "\n" + end)]
  {
    ScanAppendOne(lines, end);
    assert "" + "\n" + end == "\n" + end;
  }

  /** Every finished block ends with its END line, so its value never trims to "". */
  lemma {:induction false} CertsSolid(lines: seq<string>)
    ensures forall i :: 0 <= i < |ScanLines(lines).certs| ==> KeepCert(ScanLines(lines).certs[i])
    decreases |lines|
  {
    if |lines| > 0 {
      var init := lines[..|lines| - 1];
      var line := lines[|lines| - 1];
      CertsSolid(init);
      var s := ScanLines(init);
      if !Contains(line, BeginMarker) && Contains(line, EndMarker) {
        var value := s.current.value + "\n" + line;
        var w := ContainsWitness(line, EndMarker);
        assert value[|s.current.value| + 1 + w] == line[w] == '-';
        TrimKeepsSolid(value, |s.current.value| + 1 + w);
      }
    }
  }

  /** The filter on `certKeys` never removes a block. */
  lemma CertFilterKeepsAll(text: string)
    ensures var certs := ScanLines(Split(text, '\n')).certs; Filter(certs, KeepCert) == certs
  {
    var certs := ScanLines(Split(text, '\n')).certs;
    CertsSolid(Split(text, '\n'));
    FilterAllKept(certs, KeepCert);
  }
}
