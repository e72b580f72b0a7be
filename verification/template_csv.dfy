/** The downloadable depth-chart template: a header, a hint row, and one
    blank row per depth slot, as text. */
module TemplateCsv {
  import opened Wrappers
  import opened Text
  import opened Entities
  import opened ParseCsv

  predicate IsComma(c: char) {
    c == ','
  }

  predicate IsNewline(c: char) {
    c == '\n'
  }

  /** The nine column names, in order. */
  const HeaderFields: seq<string> :=
    ["League Name", "Team Name", "Pos", "Name", "Age", "Team", "2026 Picks", "2027 Picks", "2028 Picks"]

  const Header: string := Join(HeaderFields, ',')

  /** The hint row: league and team placeholders on a first quarterback slot. */
  const HintFields: seq<string> := ["League Name", "Team Name", "QB1", "", "", "", "", "", ""]

  const HintRow: string := Join(HintFields, ',')

  /** The slot prefixes and how many slots each gets. */
  const Prefixes: seq<string> := PositionGroups + ["TX"]
  const Counts: seq<nat> := [5, 12, 12, 5, 2, 5]

  /** The fields of a slot row: blank but for the position pos. */
  function SlotFields(pos: string): (r: seq<string>)
    ensures |r| == 9 && r[2] == pos
  {
    ["", "", pos, "", "", "", "", "", ""]
  }

  /** `,,<pos>,,,,,,` */
  function SlotRow(pos: string): string {
    ",," + pos + ",,,,,,"
  }

  /** The prefix numbered 1 to `n`. */
  function Numbered(prefix: string, n: nat): (r: seq<string>)
    ensures |r| == n
  {
    if n == 0 then [] else Numbered(prefix, n - 1) + [prefix + NatToString(n)]
  }

  lemma {:induction false} NumberedAt(prefix: string, n: nat, i: nat)
    requires i < n
    ensures Numbered(prefix, n)[i] == prefix + NatToString(i + 1)
  {
    if i < n - 1 {
      NumberedAt(prefix, n - 1, i);
    }
  }

  /** The labels of the first `n` prefixes, in order. */
  function LabelsUpTo(n: nat): seq<string>
    requires n <= |Prefixes|
  {
    if n == 0 then [] else LabelsUpTo(n - 1) + Numbered(Prefixes[n - 1], Counts[n - 1])
  }

  /** Every slot label, QB1 to TX5. */
  function SlotLabels(): seq<string> {
    LabelsUpTo(|Prefixes|)
  }

  /** One slot row per label. */
  function Rows(labels: seq<string>): (r: seq<string>)
    ensures |r| == |labels|
  {
    if |labels| == 0 then [] else Rows(labels[..|labels| - 1]) + [SlotRow(labels[|labels| - 1])]
  }

  lemma {:induction false} RowsAppend(a: seq<string>, b: seq<string>)
    ensures Rows(a + b) == Rows(a) + Rows(b)
    decreases |b|
  {
    if |b| > 0 {
      RowsAppend(a, b[..|b| - 1]);
      assert (a + b)[..|a + b| - 1] == a + b[..|b| - 1];
    } else {
      assert a + b == a;
    }
  }

  lemma {:induction false} RowsAt(labels: seq<string>, i: nat)
    requires i < |labels|
    ensures Rows(labels)[i] == SlotRow(labels[i])
  {
    if i < |labels| - 1 {
      RowsAt(labels[..|labels| - 1], i);
    }
  }

  /** `addSlots(prefix, count)`. */
  method AddSlots(rows: seq<string>, prefix: string, count: nat) returns (rows': seq<string>)
    ensures rows' == rows + Rows(Numbered(prefix, count))
  {
    rows' := rows;
    var i := 1;
    while i <= count
      invariant 1 <= i <= count + 1
      invariant rows' == rows + Rows(Numbered(prefix, i - 1))
    {
      var pos := prefix + NatToString(i);
      assert Numbered(prefix, i) == Numbered(prefix, i - 1) + [pos];
      assert Rows(Numbered(prefix, i)) == Rows(Numbered(prefix, i - 1)) + [SlotRow(pos)];
      rows' := rows' + [SlotRow(pos)];
      i := i + 1;
    }
  }

  /** One prefix's slot rows, appended. */
  method AddPrefix(rows: seq<string>, k: nat) returns (rows': seq<string>)
    requires k < |Prefixes| && rows == Rows(LabelsUpTo(k))
    ensures rows' == Rows(LabelsUpTo(k + 1))
  {
    rows' := AddSlots(rows, Prefixes[k], Counts[k]);
    RowsAppend(LabelsUpTo(k), Numbered(Prefixes[k], Counts[k]));
  }

  /** `getDepthChartTemplateCsv`: the header line, then the hint row and the
      slot rows joined by newlines. */
  method TemplateCsv() returns (csv: string, rows: seq<string>)
    ensures rows == [HintRow] + Rows(SlotLabels())
    ensures csv == Header + "\n" + Join(rows, '\n')
  {
    rows := [];
    var k := 0;
    while k < |Prefixes|
      invariant 0 <= k <= |Prefixes|
      invariant rows == Rows(LabelsUpTo(k))
    {
      rows := AddPrefix(rows, k);
      k := k + 1;
    }
    rows := [HintRow] + rows;
    csv := Header + "\n" + Join(rows, '\n');
  }

  // ------------------------------------------------------------ properties

  /** 41 slot labels: QB 5, RB 12, WR 12, TE 5, DEF 2 and TX 5. */
  lemma SlotCount()
    ensures |SlotLabels()| == 41
  {
    assert |LabelsUpTo(6)| == |LabelsUpTo(5)| + 5;
    assert |LabelsUpTo(5)| == |LabelsUpTo(4)| + 2;
    assert |LabelsUpTo(4)| == |LabelsUpTo(3)| + 5;
    assert |LabelsUpTo(3)| == |LabelsUpTo(2)| + 12;
    assert |LabelsUpTo(2)| == |LabelsUpTo(1)| + 12;
    assert |LabelsUpTo(1)| == 5;
  }

  /** Each slot label is one prefix followed by a number from 1 to that
      prefix's count. */
  lemma {:induction false} LabelAt(n: nat, j: nat) returns (k: nat, i: nat)
    requires n <= |Prefixes| && j < |LabelsUpTo(n)|
    ensures k < n && 1 <= i <= Counts[k] && LabelsUpTo(n)[j] == Prefixes[k] + NatToString(i)
  {
    var front := LabelsUpTo(n - 1);
    var last := Numbered(Prefixes[n - 1], Counts[n - 1]);
    assert LabelsUpTo(n) == front + last;
    if j < |front| {
      k, i := LabelAt(n - 1, j);
      assert LabelsUpTo(n)[j] == front[j];
    } else {
      k, i := n - 1, j - |front| + 1;
      NumberedAt(Prefixes[k], Counts[k], j - |front|);
      assert LabelsUpTo(n)[j] == last[j - |front|];
    }
  }

  /** Letters and digits only. */
  predicate Alnum(s: string) {
    forall i :: 0 <= i < |s| ==> 'A' <= s[i] <= 'Z' || IsDigit(s[i])
  }

  lemma LabelAlnum(k: nat, i: nat)
    requires k < |Prefixes|
    ensures Alnum(Prefixes[k] + NatToString(i))
  {
    var p := Prefixes[k];
    var d := NatToString(i);
    assert Alnum(p) by {
      if k == 0 {} else if k == 1 {} else if k == 2 {} else if k == 3 {} else if k == 4 {} else {}
    }
    forall j | 0 <= j < |p + d| ensures 'A' <= (p + d)[j] <= 'Z' || IsDigit((p + d)[j]) {
      if j >= |p| {
        assert (p + d)[j] == d[j - |p|];
      } else {
        assert (p + d)[j] == p[j];
      }
    }
  }

  /** Every slot label is read by the corrected parser as its prefix's group
      and its number, a taxi label as the taxi squad. The as-written parser
      agrees on the group labels and rejects every taxi label. */
  lemma SlotLabelParses(j: nat) returns (k: nat, i: nat)
    requires j < |SlotLabels()|
    ensures k < |Prefixes| && 1 <= i <= Counts[k] && SlotLabels()[j] == Prefixes[k] + NatToString(i)
    ensures ParsePosFixed(Some(SlotLabels()[j]))
            == Some(if k < |PositionGroups| then PosInfo(Prefixes[k], i) else PosInfo(TAXI, 999))
    ensures ParsePos(Some(SlotLabels()[j])).None? <==> k == |PositionGroups|
    ensures Alnum(SlotLabels()[j])
  {
    k, i := LabelAt(|Prefixes|, j);
    LabelAlnum(k, i);
    if k < 5 {
      assert Prefixes[k] == PositionGroups[k];
      GroupLabelRoundTrip(k, i);
    } else {
      assert Prefixes[k] == "TX";
      NumberedTaxiLabelRejected(i);
    }
  }

  /** The template's last five slots are rejected by the as-written parser:
      a filled-in taxi row yields no player. */
  lemma FilledTaxiRowDropped(i: nat, name: string)
    requires Trim(name) != ""
    ensures var row := CsvRow(Some("TX" + NatToString(i)), Some(name), None, None, None, None, None);
            !Accepted(ParsePos, row) && Accepted(ParsePosFixed, row)
  {
    NumberedTaxiLabelRejected(i);
  }

  /** Fields free of commas and newlines. */
  predicate PlainField(s: string) {
    NoSep(s, IsComma) && NoSep(s, IsNewline)
  }

  lemma AlnumPlain(s: string)
    requires Alnum(s)
    ensures PlainField(s)
  {
  }

  /** `n` empty fields joined by commas are `n - 1` commas. */
  lemma {:induction false} JoinEmpties(n: nat)
    requires n >= 1
    ensures Join(seq(n, _ => ""), ',') == seq(n - 1, _ => ',')
  {
    if n > 1 {
      JoinEmpties(n - 1);
      JoinCons("", seq(n - 1, _ => ""), ',');
      assert seq(n, _ => "") == [""] + seq(n - 1, _ => "");
      assert "" + [','] + seq(n - 2, _ => ',') == seq(n - 1, _ => ',');
    }
  }

  /** A slot row is the nine slot fields joined by commas. */
  lemma SlotRowJoin(pos: string)
    ensures SlotRow(pos) == Join(SlotFields(pos), ',')
  {
    var f := SlotFields(pos);
    JoinEmpties(6);
    assert f[3..] == seq(6, _ => "");
    assert seq(5, _ => ',') == ",,,,,";
    JoinCons(f[2], f[3..], ',');
    assert f[2..] == [f[2]] + f[3..];
    JoinCons(f[1], f[2..], ',');
    assert f[1..] == [f[1]] + f[2..];
    JoinCons(f[0], f[1..], ',');
    assert f == [f[0]] + f[1..];
  }

  /** A slot row splits on commas into its nine fields, the label third. */
  lemma SlotRowFields(pos: string)
    requires PlainField(pos)
    ensures Split(SlotRow(pos), IsComma) == SlotFields(pos)
    ensures NoSep(SlotRow(pos), IsNewline)
  {
    SlotRowJoin(pos);
    var f := SlotFields(pos);
    SplitJoinRoundTrip(f, ',', IsComma);
    JoinNoSep(f, ',', IsNewline);
  }

  lemma HeaderFieldsPlain()
    ensures forall k :: 0 <= k < |HeaderFields| ==> PlainField(HeaderFields[k])
  {
  }

  lemma HintFieldsPlain()
    ensures forall k :: 0 <= k < |HintFields| ==> PlainField(HintFields[k])
  {
  }

  /** The header splits into its nine fields and holds no newline. */
  lemma HeaderSplit()
    ensures Split(Header, IsComma) == HeaderFields && |HeaderFields| == 9
    ensures NoSep(Header, IsNewline)
  {
    HeaderFieldsPlain();
    SplitJoinRoundTrip(HeaderFields, ',', IsComma);
    JoinNoSep(HeaderFields, ',', IsNewline);
  }

  /** The hint row splits into its nine fields and holds no newline. */
  lemma HintSplit()
    ensures Split(HintRow, IsComma) == HintFields && |HintFields| == 9
    ensures NoSep(HintRow, IsNewline)
  {
    HintFieldsPlain();
    SplitJoinRoundTrip(HintFields, ',', IsComma);
    JoinNoSep(HintFields, ',', IsNewline);
  }

  /** The header's third column is the position, and the hint row's
      position field reads as the first quarterback slot. */
  lemma HintLabel()
    ensures HeaderFields[2] == "Pos" && ParsePosFixed(Some(HintFields[2])) == Some(PosInfo(QB, 1))
  {
    GroupLabelRoundTrip(0, 1);
    assert NatToString(1) == "1";
    assert HintFields[2] == QB + NatToString(1);
  }

  /** Every slot row is free of newlines and splits into its fields. */
  lemma SlotRowsShape(j: nat)
    requires j < |SlotLabels()|
    ensures var r := Rows(SlotLabels())[j];
            r == SlotRow(SlotLabels()[j]) && Split(r, IsComma) == SlotFields(SlotLabels()[j]) && NoSep(r, IsNewline)
  {
    var labels := SlotLabels();
    RowsAt(labels, j);
    var _, _ := SlotLabelParses(j);
    AlnumPlain(labels[j]);
    SlotRowFields(labels[j]);
  }

  /** No slot row holds a newline. */
  lemma SlotRowsPlain()
    ensures forall j :: 0 <= j < |Rows(SlotLabels())| ==> NoSep(Rows(SlotLabels())[j], IsNewline)
  {
    forall j | 0 <= j < |Rows(SlotLabels())| ensures NoSep(Rows(SlotLabels())[j], IsNewline) {
      SlotRowsShape(j);
    }
  }

  /** The text is the header line and the rows, joined by newlines, and it
      splits back into exactly those lines. */
  lemma {:induction false} TemplateSplit(csv: string, rows: seq<string>)
    requires rows == [HintRow] + Rows(SlotLabels())
    requires csv == Header + "\n" + Join(rows, '\n')
    ensures Split(csv, IsNewline) == [Header] + rows
  {
    var lines := [Header] + rows;
    JoinCons(Header, rows, '\n');
    HeaderSplit();
    HintSplit();
    SlotRowsPlain();
    LinesPlain(Header, HintRow, Rows(SlotLabels()));
    SplitJoinRoundTrip(lines, '\n', IsNewline);
  }

  /** Newline-free header, hint and slot rows make newline-free lines. */
  lemma LinesPlain(header: string, hint: string, slotRows: seq<string>)
    requires NoSep(header, IsNewline) && NoSep(hint, IsNewline)
    requires forall j :: 0 <= j < |slotRows| ==> NoSep(slotRows[j], IsNewline)
    ensures forall m :: 0 <= m < |[header] + ([hint] + slotRows)| ==>
              NoSep(([header] + ([hint] + slotRows))[m], IsNewline)
  {
    var lines := [header] + ([hint] + slotRows);
    forall m | 0 <= m < |lines| ensures NoSep(lines[m], IsNewline) {
      if m >= 2 {
        assert lines[m] == slotRows[m - 2];
      }
    }
  }

  /** The template's lines: the header, the hint row, then one slot row per
      label, QB1 first and TX5 last; 43 lines in all, each slot row splitting
      into the nine fields with its label third. */
  lemma TemplateLines(csv: string, rows: seq<string>)
    requires rows == [HintRow] + Rows(SlotLabels())
    requires csv == Header + "\n" + Join(rows, '\n')
    ensures Split(csv, IsNewline) == [Header] + rows && |rows| == 42
    ensures forall j :: 0 <= j < |SlotLabels()| ==> Split(rows[j + 1], IsComma) == SlotFields(SlotLabels()[j])
  {
    SlotCount();
    TemplateSplit(csv, rows);
    forall j | 0 <= j < |SlotLabels()| ensures Split(rows[j + 1], IsComma) == SlotFields(SlotLabels()[j]) {
      SlotRowsShape(j);
    }
  }
}
