/** The ATOM records the generator stores for a structure
    (deeprank/generate/DataGenerator.py, lines 717-777): `_add_pdb` keeps
    the ATOM lines of a file as they are, `_add_aug_pdb` writes the lines of
    a rotated replica field by field, and both store each line as a
    73-byte string. The writer's columns are those of the PDB format's
    ATOM record, so a reader that cuts the line at those columns gets the
    atom back. */
module AtomRecord {
  import opened Wrappers
  import opened Text
  import opened Lists

  /** One row of the structure's table, in the order `get('*')` returns
      it. Coordinates are held in thousandths of an angstrom and occupancy
      and temperature factor in hundredths, the precision the record
      prints. */
  datatype Atom = Atom(serial: int, name: string, altLoc: string, resName: string,
                       chainID: string, resSeq: int, iCode: string,
                       x: int, y: int, z: int, occ: int, temp: int)

  /** The stored width of a record: `astype('|S73')`. */
  const RecordWidth: nat := 73

  /** `astype('|S73')` on one line: longer lines are cut. */
  function Record(line: string): (r: string)
    ensures |r| <= RecordWidth && |r| <= |line| && r == line[..|r|]
    ensures |line| <= RecordWidth ==> r == line
    ensures |line| > RecordWidth ==> r == line[..RecordWidth]
  {
    if |line| <= RecordWidth then line else line[..RecordWidth]
  }

  // ---------------------------------------------------------------------
  // Writing a record (`_add_aug_pdb`)
  // ---------------------------------------------------------------------

  /** Lines 759-774: the line, piece after piece, as the source appends
      them. `str.format` pads a short field and never cuts a long one. */
  function AtomLine(a: Atom): string {
    "ATOM  " + RightJustify(IntString(a.serial), 5) + " " + Center(a.name, 4) +
    RightJustify(a.altLoc, 1) + RightJustify(a.resName, 3) + " " + RightJustify(a.chainID, 1) +
    RightJustify(IntString(a.resSeq), 4) + RightJustify(a.iCode, 1) + "   " +
    RightJustify(FixedPoint(a.x, 3), 8) + RightJustify(FixedPoint(a.y, 3), 8) +
    RightJustify(FixedPoint(a.z, 3), 8) +
    RightJustify(FixedPoint(a.occ, 2), 6) + RightJustify(FixedPoint(a.temp, 2), 6)
  }

  /** The values fit their columns: no field overflows, and the text fields
      carry no padding of their own that a reader would strip. */
  predicate Fits(a: Atom) {
    |IntString(a.serial)| <= 5 && |a.name| <= 4 && Trimmed(a.name) &&
    |a.altLoc| <= 1 && NoLead(a.altLoc) && |a.resName| <= 3 && NoLead(a.resName) &&
    |a.chainID| <= 1 && NoLead(a.chainID) && |IntString(a.resSeq)| <= 4 &&
    |a.iCode| <= 1 && NoLead(a.iCode) &&
    CoordinateFits(a.x) && CoordinateFits(a.y) && CoordinateFits(a.z) && |FixedPoint(a.occ, 2)| <= 6 && |FixedPoint(a.temp, 2)| <= 6
  }

  /** A right-justified text field that a reader's stripping leaves whole. */
  predicate NoLead(s: string) {
    s == [] || s[0] != ' '
  }

  /** A coordinate fits its eight columns. */
  predicate CoordinateFits(m: int) {
    |FixedPoint(m, 3)| <= 8
  }

  /** Lines 759-774 for one row: the line built by appending the fields. */
  method FormatAtomLine(d: Atom) returns (line: string)
    ensures line == AtomLine(d)
  {
    line := "ATOM  ";
    line := line + RightJustify(IntString(d.serial), 5);
    line := line + " ";
    line := line + Center(d.name, 4);
    line := line + RightJustify(d.altLoc, 1);
    line := line + RightJustify(d.resName, 3);
    line := line + " ";
    line := line + RightJustify(d.chainID, 1);
    line := line + RightJustify(IntString(d.resSeq), 4);
    line := line + RightJustify(d.iCode, 1);
    line := line + "   ";
    line := line + RightJustify(FixedPoint(d.x, 3), 8);
    line := line + RightJustify(FixedPoint(d.y, 3), 8);
    line := line + RightJustify(FixedPoint(d.z, 3), 8);
    line := line + RightJustify(FixedPoint(d.occ, 2), 6);
    line := line + RightJustify(FixedPoint(d.temp, 2), 6);
  }

  /** The record stored for one row of a rotated structure. */
  function StoredRecord(a: Atom): string {
    Record(AtomLine(a))
  }

  /** Lines 757-777 for the rows of a rotated structure: one line per row,
      each stored as a 73-byte string. */
  method AugPdbRecords(rows: seq<Atom>) returns (data: seq<string>)
    ensures data == Each(StoredRecord, rows)
  {
    data := [];
    for i := 0 to |rows|
      invariant data == Each(StoredRecord, rows[..i])
    {
      EachSnoc(StoredRecord, rows, i);
      var line := FormatAtomLine(rows[i]);
      data := data + [Record(line)];
    }
    assert rows[..|rows|] == rows;
  }

  /** Each stored record of a row whose values fit is the whole line, and
      reads back to the row. */
  lemma {:induction false} AugRecordsReadBack(rows: seq<Atom>, i: nat)
    requires i < |rows| && Fits(rows[i])
    ensures Each(StoredRecord, rows)[i] == AtomLine(rows[i])
    ensures ParseAtomLine(Each(StoredRecord, rows)[i]) == Some(rows[i])
  {
    EachIndex(StoredRecord, rows, i);
    AtomRecordWhole(rows[i]);
    AtomLineRoundTrip(rows[i]);
  }

  // ---------------------------------------------------------------------
  // Reading a record back at the PDB columns
  // ---------------------------------------------------------------------

  /** A reader of the ATOM record at the columns of the PDB format (serial
      in columns 7-11, atom name 13-16, alternate location 17, residue name
      18-20, chain 22, residue number 23-26, insertion code 27, coordinates
      31-54, occupancy 55-60, temperature factor 61-66): numbers read with
      `int` and as fixed-point text, text fields with their padding
      stripped. `None` stands for a line too short, another record type, or
      a malformed number. */
  function ParseAtomLine(line: string): (r: Option<Atom>)
  {
    if |line| < 66 || line[..6] != "ATOM  " then None
    else
      var serial, resSeq := ParseInt(LStrip(line[6..11])), ParseInt(LStrip(line[22..26]));
      var x, y, z := ParseFixed(LStrip(line[30..38]), 3), ParseFixed(LStrip(line[38..46]), 3),
                     ParseFixed(LStrip(line[46..54]), 3);
      var occ, temp := ParseFixed(LStrip(line[54..60]), 2), ParseFixed(LStrip(line[60..66]), 2);
      if serial.None? || resSeq.None? || x.None? || y.None? || z.None? || occ.None? || temp.None? then None
      else Some(Atom(serial.value, Strip(line[12..16]), LStrip(line[16..17]), LStrip(line[17..20]),
                     LStrip(line[21..22]), resSeq.value, LStrip(line[26..27]),
                     x.value, y.value, z.value, occ.value, temp.value))
  }

  /** Pieces of the record's widths, appended in order, sit at the record's
      columns. */
  lemma {:induction false} Layout(f0: string, f1: string, f2: string, f3: string, f4: string, f5: string,
                                  f6: string, f7: string, f8: string, f9: string, f10: string, f11: string,
                                  f12: string, f13: string, f14: string, f15: string)
    requires |f0| == 6 && |f1| == 5 && |f2| == 1 && |f3| == 4 && |f4| == 1 && |f5| == 3 && |f6| == 1
    requires |f7| == 1 && |f8| == 4 && |f9| == 1 && |f10| == 3 && |f11| == 8 && |f12| == 8 && |f13| == 8
    requires |f14| == 6 && |f15| == 6
    ensures var l := f0 + f1 + f2 + f3 + f4 + f5 + f6 + f7 + f8 + f9 + f10 + f11 + f12 + f13 + f14 + f15;
      |l| == 66 && l[..6] == f0 && l[6..11] == f1 && l[11..12] == f2 && l[12..16] == f3 && l[16..17] == f4 &&
      l[17..20] == f5 && l[20..21] == f6 && l[21..22] == f7 && l[22..26] == f8 && l[26..27] == f9 &&
      l[27..30] == f10 &&
      l[30..38] == f11 && l[38..46] == f12 && l[46..54] == f13 && l[54..60] == f14 && l[60..66] == f15
  {
    var l1 := f0 + f1;
    var l2 := l1 + f2;
    var l3 := l2 + f3;
    var l4 := l3 + f4;
    var l5 := l4 + f5;
    var l6 := l5 + f6;
    var l7 := l6 + f7;
    var l8 := l7 + f8;
    var l9 := l8 + f9;
    var l10 := l9 + f10;
    var l11 := l10 + f11;
    var l12 := l11 + f12;
    var l13 := l12 + f13;
    var l14 := l13 + f14;
    var l := l14 + f15;
    Ends(l14, f15, l, l);
    Ends(l13, f14, l14, l);
    Ends(l12, f13, l13, l);
    Ends(l11, f12, l12, l);
    Ends(l10, f11, l11, l);
    Ends(l9, f10, l10, l);
    Ends(l8, f9, l9, l);
    Ends(l7, f8, l8, l);
    Ends(l6, f7, l7, l);
    Ends(l5, f6, l6, l);
    Ends(l4, f5, l5, l);
    Ends(l3, f4, l4, l);
    Ends(l2, f3, l3, l);
    Ends(l1, f2, l2, l);
    Ends(f0, f1, l1, l);
  }

  /** A piece appended to a prefix of `s` sits in `s` right after it. */
  lemma {:induction false} Ends(x: string, f: string, xf: string, s: string)
    requires xf == x + f && |xf| <= |s| && s[..|xf|] == xf
    ensures |x| <= |s| && s[..|x|] == x && s[|x|..|xf|] == f
  {
    assert s[..|x|] == xf[..|x|];
    assert s[|x|..|xf|] == xf[|x|..];
  }

  /** A record of values that fit is 66 characters long, each column holds
      the field written for it, and the separator columns 12, 21 and 28-30
      hold spaces. */
  lemma {:induction false} AtomLineColumns(a: Atom)
    requires Fits(a)
    ensures var l := AtomLine(a);
      |l| == 66 && l[..6] == "ATOM  " &&
      l[6..11] == RightJustify(IntString(a.serial), 5) && l[11..12] == " " && l[12..16] == Center(a.name, 4) &&
      l[16..17] == RightJustify(a.altLoc, 1) && l[17..20] == RightJustify(a.resName, 3) && l[20..21] == " " &&
      l[21..22] == RightJustify(a.chainID, 1) && l[22..26] == RightJustify(IntString(a.resSeq), 4) &&
      l[26..27] == RightJustify(a.iCode, 1) && l[27..30] == "   " &&
      l[30..38] == RightJustify(FixedPoint(a.x, 3), 8) && l[38..46] == RightJustify(FixedPoint(a.y, 3), 8) &&
      l[46..54] == RightJustify(FixedPoint(a.z, 3), 8) &&
      l[54..60] == RightJustify(FixedPoint(a.occ, 2), 6) && l[60..66] == RightJustify(FixedPoint(a.temp, 2), 6)
  {
    Layout("ATOM  ", RightJustify(IntString(a.serial), 5), " ", Center(a.name, 4),
           RightJustify(a.altLoc, 1), RightJustify(a.resName, 3), " ", RightJustify(a.chainID, 1),
           RightJustify(IntString(a.resSeq), 4), RightJustify(a.iCode, 1), "   ",
           RightJustify(FixedPoint(a.x, 3), 8), RightJustify(FixedPoint(a.y, 3), 8),
           RightJustify(FixedPoint(a.z, 3), 8),
           RightJustify(FixedPoint(a.occ, 2), 6), RightJustify(FixedPoint(a.temp, 2), 6));
  }

  /** A record whose values fit reads back, at the PDB columns, to the atom
      it was written from. */
  lemma {:induction false} AtomLineRoundTrip(a: Atom)
    requires Fits(a)
    ensures ParseAtomLine(AtomLine(a)) == Some(a)
  {
    var l := AtomLine(a);
    AtomLineColumns(a);
    IntFieldRoundTrip(a.serial, 5);
    IntFieldRoundTrip(a.resSeq, 4);
    StripCentered(a.name, 4);
    StripRightJustified(a.altLoc, 1);
    StripRightJustified(a.resName, 3);
    StripRightJustified(a.chainID, 1);
    StripRightJustified(a.iCode, 1);
    FixedPointRoundTrip(a.x, 3, 8);
    FixedPointRoundTrip(a.y, 3, 8);
    FixedPointRoundTrip(a.z, 3, 8);
    FixedPointRoundTrip(a.occ, 2, 6);
    FixedPointRoundTrip(a.temp, 2, 6);
    ParseFields(l, a);
  }

  /** A line of 66 or more characters whose columns read back to the fields
      of `a` is read as `a`. */
  lemma {:induction false} ParseFields(l: string, a: Atom)
    requires |l| >= 66 && l[..6] == "ATOM  "
    requires ParseInt(LStrip(l[6..11])) == Some(a.serial) && ParseInt(LStrip(l[22..26])) == Some(a.resSeq)
    requires Strip(l[12..16]) == a.name && LStrip(l[16..17]) == a.altLoc && LStrip(l[17..20]) == a.resName
    requires LStrip(l[21..22]) == a.chainID && LStrip(l[26..27]) == a.iCode
    requires ParseFixed(LStrip(l[30..38]), 3) == Some(a.x) && ParseFixed(LStrip(l[38..46]), 3) == Some(a.y)
    requires ParseFixed(LStrip(l[46..54]), 3) == Some(a.z)
    requires ParseFixed(LStrip(l[54..60]), 2) == Some(a.occ) && ParseFixed(LStrip(l[60..66]), 2) == Some(a.temp)
    ensures ParseAtomLine(l) == Some(a)
  {
    var serial, resSeq := ParseInt(LStrip(l[6..11])), ParseInt(LStrip(l[22..26]));
    var x, y, z := ParseFixed(LStrip(l[30..38]), 3), ParseFixed(LStrip(l[38..46]), 3),
                   ParseFixed(LStrip(l[46..54]), 3);
    var occ, temp := ParseFixed(LStrip(l[54..60]), 2), ParseFixed(LStrip(l[60..66]), 2);
    assert !(serial.None? || resSeq.None? || x.None? || y.None? || z.None? || occ.None? || temp.None?);
    var b := Atom(serial.value, Strip(l[12..16]), LStrip(l[16..17]), LStrip(l[17..20]),
                  LStrip(l[21..22]), resSeq.value, LStrip(l[26..27]),
                  x.value, y.value, z.value, occ.value, temp.value);
    assert b == Atom(a.serial, a.name, a.altLoc, a.resName, a.chainID, a.resSeq, a.iCode,
                     a.x, a.y, a.z, a.occ, a.temp);
    assert ParseAtomLine(l) == Some(b);
  }

  /** An integer column reads back. */
  lemma {:induction false} IntFieldRoundTrip(n: int, w: nat)
    ensures ParseInt(LStrip(RightJustify(IntString(n), w))) == Some(n)
  {
    StripRightJustified(IntString(n), w);
    ParseIntString(n);
  }

  /** Values that fit give a record stored whole. */
  lemma {:induction false} AtomRecordWhole(a: Atom)
    requires Fits(a)
    ensures Record(AtomLine(a)) == AtomLine(a)
  {
    AtomLineColumns(a);
  }

  // ---------------------------------------------------------------------
  // Keeping the ATOM lines of a file (`_add_pdb`)
  // ---------------------------------------------------------------------

  /** `line.startswith('ATOM')`. */
  predicate IsAtomLine(line: string) {
    |line| >= 4 && line[..4] == "ATOM"
  }

  /** Lines 721-722: for each line of the file whose text starts with
      `ATOM`, the text before its first newline, stored as a 73-byte
      string. The lines are those Python iterates over, each with its
      newline. */
  function PdbRecords(lines: seq<string>): (r: seq<string>)
    decreases |lines|
  {
    if lines == [] then []
    else PdbRecords(lines[..|lines| - 1]) + PdbRecord(lines[|lines| - 1])
  }

  /** The record one line contributes: one, or none for a line that is not
      an ATOM line. */
  function PdbRecord(line: string): (r: seq<string>)
    ensures |r| <= 1
    ensures |r| == 1 <==> IsAtomLine(line)
  {
    if IsAtomLine(line) then [Record(BeforeFirst(line, "\n"))] else []
  }

  /** How many ATOM lines a file has. */
  function AtomLineCount(lines: seq<string>): nat
    decreases |lines|
  {
    if lines == [] then 0
    else AtomLineCount(lines[..|lines| - 1]) + |PdbRecord(lines[|lines| - 1])|
  }

  /** One record per ATOM line, and each record starts with `ATOM`, holds
      no newline and fits in 73 bytes. */
  lemma {:induction false} PdbRecordsSpec(lines: seq<string>)
    ensures |PdbRecords(lines)| == AtomLineCount(lines)
    ensures forall i :: 0 <= i < |PdbRecords(lines)| ==>
              IsAtomLine(PdbRecords(lines)[i]) && '\n' !in PdbRecords(lines)[i] &&
              |PdbRecords(lines)[i]| <= RecordWidth
    decreases |lines|
  {
    if lines != [] {
      var init, last := lines[..|lines| - 1], lines[|lines| - 1];
      PdbRecordsSpec(init);
      if IsAtomLine(last) {
        PdbRecordSpec(last);
      }
    }
  }

  /** `PdbRecords` concatenates the records of the lines. */
  lemma {:induction false} PdbRecordsConcat(lines: seq<string>)
    ensures PdbRecords(lines) == Concat(PdbRecord, lines)
    decreases |lines|
  {
    if lines != [] {
      PdbRecordsConcat(lines[..|lines| - 1]);
    }
  }

  /** A record is stored exactly when some ATOM line of the file, cut at
      its newline and truncated to 73 characters, gives it. */
  lemma {:induction false} PdbRecordsMember(lines: seq<string>, r: string)
    ensures r in PdbRecords(lines) <==>
            exists i :: 0 <= i < |lines| && IsAtomLine(lines[i]) && r == Record(BeforeFirst(lines[i], "\n"))
  {
    PdbRecordsConcat(lines);
    ConcatMember(PdbRecord, lines, r);
    assert forall i :: 0 <= i < |lines| ==>
             (r in PdbRecord(lines[i]) <==> IsAtomLine(lines[i]) && r == Record(BeforeFirst(lines[i], "\n")));
  }

  /** The records keep the order of the lines: those of a file in two parts
      are the first part's followed by the second's. */
  lemma {:induction false} PdbRecordsAppend(a: seq<string>, b: seq<string>)
    ensures PdbRecords(a + b) == PdbRecords(a) + PdbRecords(b)
  {
    PdbRecordsConcat(a + b);
    PdbRecordsConcat(a);
    PdbRecordsConcat(b);
    ConcatAppend(PdbRecord, a, b);
  }

  /** A file of one line stores that line's record, cut at its newline and
      truncated, when it is an ATOM line, and nothing otherwise. */
  lemma {:induction false} PdbRecordsSingle(line: string)
    ensures IsAtomLine(line) ==> PdbRecords([line]) == [Record(BeforeFirst(line, "\n"))]
    ensures !IsAtomLine(line) ==> PdbRecords([line]) == []
  {
    assert [line][..0] == [];
  }

  /** The record of one ATOM line. */
  lemma {:induction false} PdbRecordSpec(line: string)
    requires IsAtomLine(line)
    ensures var r := Record(BeforeFirst(line, "\n"));
      IsAtomLine(r) && '\n' !in r && |r| <= RecordWidth
  {
    var b := BeforeFirst(line, "\n");
    var r := Record(b);
    forall j: nat | j < 4 ensures !OccursAt(line, "\n", j) {
      assert line[j..j + 1][0] == line[..4][j] == "ATOM"[j];
    }
    NoNewlineBefore(line, b);
    assert |b| >= 4;
    assert r[..4] == b[..4] == line[..4];
  }

  /** The text before the first newline holds no newline. */
  lemma {:induction false} NoNewlineBefore(line: string, b: string)
    requires b == BeforeFirst(line, "\n")
    ensures '\n' !in b
  {
    forall j | 0 <= j < |b| ensures b[j] != '\n' {
      assert line[j..j + 1][0] == line[j] == b[j];
      assert !OccursAt(line, "\n", j);
    }
  }

  /** The text fields hold no newline. */
  predicate SingleLine(a: Atom) {
    '\n' !in a.name && '\n' !in a.altLoc && '\n' !in a.resName && '\n' !in a.chainID && '\n' !in a.iCode
  }

  /** A line the writer produced, stored in a file with its newline, is kept
      by `_add_pdb` unchanged: the two ways of storing a structure agree on
      the records of values that fit. */
  lemma {:induction false} AugRecordReread(a: Atom)
    requires Fits(a) && SingleLine(a)
    ensures PdbRecords([AtomLine(a) + "\n"]) == [AtomLine(a)]
  {
    var line := AtomLine(a);
    AtomLineColumns(a);
    assert line[..4] == line[..6][..4];
    AtomLineSingle(a);
    RereadLine(line);
  }

  /** An ATOM line of at most 73 characters without a newline, saved with
      its newline, is read back by `_add_pdb` as itself. */
  lemma {:induction false} RereadLine(line: string)
    requires IsAtomLine(line) && '\n' !in line && |line| <= RecordWidth
    ensures PdbRecords([line + "\n"]) == [line]
  {
    var file := line + "\n";
    assert file[..4] == line[..4];
    NewlineEnds(line);
    assert [file][..0] == [];
  }

  /** The writer puts no newline into a line whose text fields hold none. */
  lemma {:induction false} AtomLineSingle(a: Atom)
    requires SingleLine(a)
    ensures '\n' !in AtomLine(a)
  {
    IntColumnNoNewline(a.serial, 5);
    IntColumnNoNewline(a.resSeq, 4);
    FixedColumnNoNewline(a.x, 3, 8);
    FixedColumnNoNewline(a.y, 3, 8);
    FixedColumnNoNewline(a.z, 3, 8);
    FixedColumnNoNewline(a.occ, 2, 6);
    FixedColumnNoNewline(a.temp, 2, 6);
    PaddedNoNewline(a.name, 4);
    PaddedNoNewline(a.altLoc, 1);
    PaddedNoNewline(a.resName, 3);
    PaddedNoNewline(a.chainID, 1);
    PaddedNoNewline(a.iCode, 1);
    PiecesNoNewline("ATOM  ", RightJustify(IntString(a.serial), 5), " ", Center(a.name, 4),
                    RightJustify(a.altLoc, 1), RightJustify(a.resName, 3), " ", RightJustify(a.chainID, 1),
                    RightJustify(IntString(a.resSeq), 4), RightJustify(a.iCode, 1), "   ",
                    RightJustify(FixedPoint(a.x, 3), 8), RightJustify(FixedPoint(a.y, 3), 8),
                    RightJustify(FixedPoint(a.z, 3), 8),
                    RightJustify(FixedPoint(a.occ, 2), 6), RightJustify(FixedPoint(a.temp, 2), 6));
  }

  /** Pieces without a newline join into a line without one. */
  lemma {:induction false} PiecesNoNewline(f0: string, f1: string, f2: string, f3: string, f4: string, f5: string,
                                           f6: string, f7: string, f8: string, f9: string, f10: string, f11: string,
                                           f12: string, f13: string, f14: string, f15: string)
    requires '\n' !in f0 && '\n' !in f1 && '\n' !in f2 && '\n' !in f3 && '\n' !in f4 && '\n' !in f5
    requires '\n' !in f6 && '\n' !in f7 && '\n' !in f8 && '\n' !in f9 && '\n' !in f10 && '\n' !in f11
    requires '\n' !in f12 && '\n' !in f13 && '\n' !in f14 && '\n' !in f15
    ensures '\n' !in f0 + f1 + f2 + f3 + f4 + f5 + f6 + f7 + f8 + f9 + f10 + f11 + f12 + f13 + f14 + f15
  {
  }

  lemma {:induction false} IntColumnNoNewline(n: int, w: nat)
    ensures '\n' !in RightJustify(IntString(n), w)
  {
    IntNoNewline(n);
    PaddedNoNewline(IntString(n), w);
  }

  lemma {:induction false} FixedColumnNoNewline(m: int, p: nat, w: nat)
    requires p >= 1
    ensures '\n' !in RightJustify(FixedPoint(m, p), w)
  {
    FixedNoNewline(m, p);
    PaddedNoNewline(FixedPoint(m, p), w);
  }

  lemma {:induction false} DigitsNoNewline(s: string)
    requires AllDigits(s)
    ensures '\n' !in s
  {
    forall i | 0 <= i < |s| ensures s[i] != '\n' {
      assert IsDigit(s[i]);
    }
  }

  lemma {:induction false} IntNoNewline(n: int)
    ensures '\n' !in IntString(n)
  {
    DigitsNoNewline(Decimal(if n < 0 then -n else n));
  }

  lemma {:induction false} FixedNoNewline(m: int, p: nat)
    requires p >= 1
    ensures '\n' !in FixedPoint(m, p)
  {
    DigitsNoNewline(Decimal(Quot(Abs(m), p)));
    DigitsNoNewline(ZeroPad(Rem(Abs(m), p), p));
  }

  /** Padding adds spaces only. */
  lemma {:induction false} PaddedNoNewline(s: string, w: nat)
    requires '\n' !in s
    ensures '\n' !in RightJustify(s, w) && '\n' !in Center(s, w)
  {
    var pad := PadWidth(|s|, w);
    assert '\n' !in Spaces(pad) && '\n' !in Spaces(pad / 2) && '\n' !in Spaces(pad - pad / 2);
  }

  /** The text before the first newline of `line + "\n"`, for a line
      without one, is the line. */
  lemma {:induction false} NewlineEnds(line: string)
    requires '\n' !in line
    ensures BeforeFirst(line + "\n", "\n") == line
  {
    var s := line + "\n" + "";
    forall j: nat | j < |line| ensures !OccursAt(s, "\n", j) {
      assert s[j..j + 1][0] == s[j] == line[j];
    }
    BeforeFirstOfJoin(line, "\n", "");
    assert s == line + "\n";
  }
}
