/** `_write_metadata_textproto`: the text of `metadata.textproto`, produced
    by replacing the placeholders of a fixed template one after another. */
module Sidecar {
  import opened Types
  import opened Text

  /** The placeholders of the template. */
  datatype Field = SampleCount | SequenceSize | OutputDim | ColCount | RowCount | NumChannels | Format

  /** The template as literal pieces and placeholders (`<sample_count>`, ...). */
  datatype Piece = Literal(text: string) | Placeholder(field: Field)

  function PlaceholderText(f: Field): string {
    match f
    case SampleCount => "<sample_count>"
    case SequenceSize => "<sequence_size>"
    case OutputDim => "<output_dim>"
    case ColCount => "<col_count>"
    case RowCount => "<row_count>"
    case NumChannels => "<num_channels>"
    case Format => "<format>"
  }

  /** The literal text before each placeholder, and after the last. */
  const BeforeSampleCount := "is_sequence: false\nsample_count: "
  const BeforeSequenceSize := "\nsequence_size: "
  const BeforeOutputDim := "\noutput_dim: "
  const BeforeColCount := "\nmatrix_spec {\n  col_count: "
  const BeforeRowCount := "\n  row_count: "
  const BeforeNumChannels := "\n  num_channels: "
  const BeforeFormat := "\n  is_sequence_col: false" + "\n  is_sequence_row: false"
                        + "\n  has_locality_col: false" + "\n  has_locality_row: false" + "\n  format: "
  const Closing := "\n}\n"

  const Template: seq<Piece> := [
    Literal(BeforeSampleCount), Placeholder(SampleCount),
    Literal(BeforeSequenceSize), Placeholder(SequenceSize),
    Literal(BeforeOutputDim), Placeholder(OutputDim),
    Literal(BeforeColCount), Placeholder(ColCount),
    Literal(BeforeRowCount), Placeholder(RowCount),
    Literal(BeforeNumChannels), Placeholder(NumChannels),
    Literal(BeforeFormat), Placeholder(Format),
    Literal(Closing)
  ]

  /** The text of a template; a placeholder not yet replaced shows as itself. */
  function Render(t: seq<Piece>): string {
    if t == [] then "" else PieceText(t[0]) + Render(t[1..])
  }

  function PieceText(p: Piece): string {
    match p
    case Literal(s) => s
    case Placeholder(f) => PlaceholderText(f)
  }

  /** `template.replace('<field>', value)` */
  function Replace(t: seq<Piece>, f: Field, value: string): (r: seq<Piece>)
    ensures |r| == |t|
    ensures forall i :: 0 <= i < |t| ==> r[i] == if t[i] == Placeholder(f) then Literal(value) else t[i]
  {
    seq(|t|, i requires 0 <= i < |t| => if t[i] == Placeholder(f) then Literal(value) else t[i])
  }

  /** The values written into the sidecar. */
  datatype Descriptor = Descriptor(
    sampleCount: int, sequenceSize: int, outputDim: int,
    colCount: int, rowCount: int, numChannels: int, isDense: bool)

  /** The text each placeholder is replaced by. */
  function FieldValue(d: Descriptor, f: Field): string {
    match f
    case SampleCount => IntToString(d.sampleCount)
    case SequenceSize => IntToString(d.sequenceSize)
    case OutputDim => IntToString(d.outputDim)
    case ColCount => IntToString(d.colCount)
    case RowCount => IntToString(d.rowCount)
    case NumChannels => IntToString(d.numChannels)
    case Format => if d.isDense then "DENSE" else "SPARSE"
  }

  /** Every placeholder replaced by its value. */
  function Fill(t: seq<Piece>, d: Descriptor): (r: seq<Piece>)
    ensures |r| == |t|
    ensures forall i :: 0 <= i < |t| ==> r[i] == match t[i] case Literal(_) => t[i] case Placeholder(f) => Literal(FieldValue(d, f))
  {
    seq(|t|, i requires 0 <= i < |t| =>
      match t[i] case Literal(_) => t[i] case Placeholder(f) => Literal(FieldValue(d, f)))
  }

  /** The sidecar for `d`. */
  function MetadataText(d: Descriptor): string {
    Render(Fill(Template, d))
  }

  /** The descriptor of a split: `counter` records were written; the format
      is DENSE exactly when the dataset info says "dense". */
  function DescriptorOf(counter: nat, metadata: Metadata, info: DatasetInfo): (d: Descriptor)
    ensures d.sampleCount == counter
    ensures d.sequenceSize == metadata.sequenceSize && d.outputDim == metadata.outputDim
    ensures d.colCount == metadata.colCount && d.rowCount == metadata.rowCount
    ensures d.numChannels == metadata.numChannels
    ensures d.isDense <==> info.format == "dense"
  {
    Descriptor(counter, metadata.sequenceSize, metadata.outputDim,
               metadata.colCount, metadata.rowCount, metadata.numChannels, info.format == "dense")
  }

  /** `_write_metadata_textproto(counter, metadata, D_info, filepath)` without
      the file: the placeholders are replaced in the order the source does. */
  method WriteMetadataTextproto(counter: nat, metadata: Metadata, info: DatasetInfo) returns (text: string)
    ensures text == MetadataText(DescriptorOf(counter, metadata, info))
  {
    var format := if info.format == "dense" then "DENSE" else "SPARSE";
    var t := Template;
    t := Replace(t, SampleCount, IntToString(counter));
    t := Replace(t, OutputDim, IntToString(metadata.outputDim));
    t := Replace(t, SequenceSize, IntToString(metadata.sequenceSize));
    t := Replace(t, RowCount, IntToString(metadata.rowCount));
    t := Replace(t, ColCount, IntToString(metadata.colCount));
    t := Replace(t, NumChannels, IntToString(metadata.numChannels));
    t := Replace(t, Format, format);
    assert t == Fill(Template, DescriptorOf(counter, metadata, info));
    text := Render(t);
  }

  /** Rendering from piece `i` on is the text of piece `i`, then the rest. */
  lemma RenderFrom(t: seq<Piece>, i: nat)
    requires i < |t|
    ensures Render(t[i..]) == PieceText(t[i]) + Render(t[i + 1..])
  {
    assert t[i..][1..] == t[i + 1..];
  }

  /** The filled template is the fixed schema of the sidecar: the template's
      literals in order, with the seven values in between. */
  lemma MetadataTextSchema(d: Descriptor)
    ensures MetadataText(d) ==
      BeforeSampleCount + (IntToString(d.sampleCount) +
      (BeforeSequenceSize + (IntToString(d.sequenceSize) +
      (BeforeOutputDim + (IntToString(d.outputDim) +
      (BeforeColCount + (IntToString(d.colCount) +
      (BeforeRowCount + (IntToString(d.rowCount) +
      (BeforeNumChannels + (IntToString(d.numChannels) +
      (BeforeFormat + ((if d.isDense then "DENSE" else "SPARSE") +
      Closing)))))))))))))
  {
    var f := Fill(Template, d);
    FilledFront(d);
    FilledMiddle(d);
    FilledBack(d);
    assert f[0..] == f;
    for i := 0 to 15
      invariant forall j :: 0 <= j < i ==> Render(f[j..]) == PieceText(f[j]) + Render(f[j + 1..])
    {
      RenderFrom(f, i);
    }
    assert f[15..] == [];
    assert Closing + "" == Closing;
  }

  lemma FilledFront(d: Descriptor)
    ensures |Fill(Template, d)| == 15
    ensures PieceText(Fill(Template, d)[0]) == BeforeSampleCount
    ensures PieceText(Fill(Template, d)[1]) == IntToString(d.sampleCount)
    ensures PieceText(Fill(Template, d)[2]) == BeforeSequenceSize
    ensures PieceText(Fill(Template, d)[3]) == IntToString(d.sequenceSize)
    ensures PieceText(Fill(Template, d)[4]) == BeforeOutputDim
  {
    assert Template[0] == Literal(BeforeSampleCount);
    assert Template[1] == Placeholder(SampleCount);
    assert Template[2] == Literal(BeforeSequenceSize);
    assert Template[3] == Placeholder(SequenceSize);
    assert Template[4] == Literal(BeforeOutputDim);
  }

  lemma FilledMiddle(d: Descriptor)
    ensures |Fill(Template, d)| == 15
    ensures PieceText(Fill(Template, d)[5]) == IntToString(d.outputDim)
    ensures PieceText(Fill(Template, d)[6]) == BeforeColCount
    ensures PieceText(Fill(Template, d)[7]) == IntToString(d.colCount)
    ensures PieceText(Fill(Template, d)[8]) == BeforeRowCount
    ensures PieceText(Fill(Template, d)[9]) == IntToString(d.rowCount)
  {
    assert Template[5] == Placeholder(OutputDim);
    assert Template[6] == Literal(BeforeColCount);
    assert Template[7] == Placeholder(ColCount);
    assert Template[8] == Literal(BeforeRowCount);
    assert Template[9] == Placeholder(RowCount);
  }

  lemma FilledBack(d: Descriptor)
    ensures |Fill(Template, d)| == 15
    ensures PieceText(Fill(Template, d)[10]) == BeforeNumChannels
    ensures PieceText(Fill(Template, d)[11]) == IntToString(d.numChannels)
    ensures PieceText(Fill(Template, d)[12]) == BeforeFormat
    ensures PieceText(Fill(Template, d)[13]) == if d.isDense then "DENSE" else "SPARSE"
    ensures PieceText(Fill(Template, d)[14]) == Closing
  {
    assert Template[10] == Literal(BeforeNumChannels);
    assert Template[11] == Placeholder(NumChannels);
    assert Template[12] == Literal(BeforeFormat);
    assert Template[13] == Placeholder(Format);
    assert Template[14] == Literal(Closing);
  }

  /** Pieces ready to render: values hold no newline, and every literal after
      the first one starts with a newline. */
  predicate NewlineSeparated(t: seq<Piece>) {
    forall i | 0 <= i < |t| :: NewlineAfter(t, i)
  }

  /** A placeholder at `i` is followed by a literal that starts with a newline. */
  predicate NewlineAfter(t: seq<Piece>, i: int) {
    0 <= i < |t| && t[i].Placeholder? ==>
      i + 1 < |t| && t[i + 1].Literal? && |t[i + 1].text| > 0 && t[i + 1].text[0] == '\n'
  }

  lemma FieldValueOneLine(d: Descriptor, f: Field)
    ensures '\n' !in FieldValue(d, f)
  {
    IntToStringHasNoSeparators(d.sampleCount);
    IntToStringHasNoSeparators(d.sequenceSize);
    IntToStringHasNoSeparators(d.outputDim);
    IntToStringHasNoSeparators(d.colCount);
    IntToStringHasNoSeparators(d.rowCount);
    IntToStringHasNoSeparators(d.numChannels);
  }

  lemma {:induction false} RenderStartsWithLiteral(t: seq<Piece>, d: Descriptor)
    requires |t| > 0 && t[0].Literal? && |t[0].text| > 0
    ensures |Render(Fill(t, d))| > 0 && Render(Fill(t, d))[0] == t[0].text[0]
  {
    var p := Fill(t, d);
    assert p[0] == t[0];
  }

  lemma NewlineSeparatedTail(t: seq<Piece>)
    requires |t| > 0 && NewlineSeparated(t)
    ensures NewlineSeparated(t[1..])
  {
    forall i ensures NewlineAfter(t[1..], i) {
      assert NewlineAfter(t, i + 1);
      if 0 <= i < |t[1..]| && t[1..][i].Placeholder? {
        assert t[i + 1].Placeholder?;
        assert t[1..][i + 1] == t[i + 2];
      }
    }
  }

  /** Where two descriptors give the same text for a template, they give the
      same value to each of its placeholders. */
  lemma {:induction false} FillInjective(t: seq<Piece>, d1: Descriptor, d2: Descriptor)
    requires NewlineSeparated(t)
    requires Render(Fill(t, d1)) == Render(Fill(t, d2))
    ensures forall i :: 0 <= i < |t| && t[i].Placeholder? ==> FieldValue(d1, t[i].field) == FieldValue(d2, t[i].field)
  {
    if t != [] {
      var p1, p2 := Fill(t, d1), Fill(t, d2);
      assert p1[1..] == Fill(t[1..], d1) && p2[1..] == Fill(t[1..], d2);
      NewlineSeparatedTail(t);
      match t[0]
      case Literal(s) =>
        assert Render(p1) == s + Render(p1[1..]);
        assert Render(p2) == s + Render(p2[1..]);
        assert Render(p1[1..]) == (s + Render(p1[1..]))[|s|..];
        assert Render(p2[1..]) == (s + Render(p2[1..]))[|s|..];
        FillInjective(t[1..], d1, d2);
      case Placeholder(f) =>
        var v1, v2 := FieldValue(d1, f), FieldValue(d2, f);
        NextIsNewline(t);
        FieldValueOneLine(d1, f);
        FieldValueOneLine(d2, f);
        RenderStartsWithLiteral(t[1..], d1);
        RenderStartsWithLiteral(t[1..], d2);
        assert Render(p1) == v1 + Render(p1[1..]);
        assert Render(p2) == v2 + Render(p2[1..]);
        SplitAtSeparator('\n', v1, Render(p1[1..]), v2, Render(p2[1..]));
        FillInjective(t[1..], d1, d2);
    }
  }

  lemma NextIsNewline(t: seq<Piece>)
    requires |t| > 0 && t[0].Placeholder? && NewlineSeparated(t)
    ensures |t[1..]| > 0 && t[1..][0].Literal? && |t[1..][0].text| > 0 && t[1..][0].text[0] == '\n'
  {
    assert NewlineAfter(t, 0);
    assert t[1..][0] == t[1];
  }

  lemma TemplateNewlineSeparated()
    ensures NewlineSeparated(Template)
  {
    forall i | 0 <= i < |Template| && Template[i].Placeholder?
      ensures NewlineAfter(Template, i)
    {
      assert Template[0].Literal? && Template[2].Literal? && Template[4].Literal? && Template[6].Literal?;
      assert Template[8].Literal? && Template[10].Literal? && Template[12].Literal? && Template[14].Literal?;
      assert BeforeSequenceSize[0] == '\n';
      assert BeforeOutputDim[0] == '\n';
      assert BeforeColCount[0] == '\n';
      assert BeforeRowCount[0] == '\n';
      assert BeforeNumChannels[0] == '\n';
      assert BeforeFormat[0] == '\n';
      assert Closing[0] == '\n';
      assert i == 1 || i == 3 || i == 5 || i == 7 || i == 9 || i == 11 || i == 13;
    }
  }

  /** Equal sidecar texts give equal values to the seven placeholders. */
  lemma {:induction false} SameTextSameValues(d1: Descriptor, d2: Descriptor)
    requires MetadataText(d1) == MetadataText(d2)
    ensures IntToString(d1.sampleCount) == IntToString(d2.sampleCount)
    ensures IntToString(d1.sequenceSize) == IntToString(d2.sequenceSize)
    ensures IntToString(d1.outputDim) == IntToString(d2.outputDim)
    ensures IntToString(d1.colCount) == IntToString(d2.colCount)
    ensures IntToString(d1.rowCount) == IntToString(d2.rowCount)
    ensures IntToString(d1.numChannels) == IntToString(d2.numChannels)
    ensures d1.isDense == d2.isDense
  {
    TemplateNewlineSeparated();
    FillInjective(Template, d1, d2);
    assert Template[1] == Placeholder(SampleCount) && Template[3] == Placeholder(SequenceSize);
    assert Template[5] == Placeholder(OutputDim) && Template[7] == Placeholder(ColCount);
    assert Template[9] == Placeholder(RowCount) && Template[11] == Placeholder(NumChannels);
    assert Template[13] == Placeholder(Format);
    assert FieldValue(d1, Format) == FieldValue(d2, Format);
    assert "DENSE" != "SPARSE";
  }

  /** The sidecar text determines the descriptor and vice versa: rewriting
      it for a different descriptor leaves no field of the old one behind. */
  lemma MetadataTextInjective(d1: Descriptor, d2: Descriptor)
    ensures MetadataText(d1) == MetadataText(d2) <==> d1 == d2
  {
    if MetadataText(d1) == MetadataText(d2) {
      SameTextSameValues(d1, d2);
      IntToStringInjective(d1.sampleCount, d2.sampleCount);
      IntToStringInjective(d1.sequenceSize, d2.sequenceSize);
      IntToStringInjective(d1.outputDim, d2.outputDim);
      IntToStringInjective(d1.colCount, d2.colCount);
      IntToStringInjective(d1.rowCount, d2.rowCount);
      IntToStringInjective(d1.numChannels, d2.numChannels);
    }
  }
}
