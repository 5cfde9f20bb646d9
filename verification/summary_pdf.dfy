/**
 * The text and table content of the submission summary document: the two address
 * blocks, one table row per line item, and the submission number that names the file.
 * Drawing (fonts, positions, the table layout) belongs to the PDF library and is not modelled.
 */
module SummaryPdf {
  import opened Options
  import opened Seqs
  import opened Numbers
  import opened Domain
  import opened LineItems

  const BillingTitle := "Adresse de Facturation:"
  const ShippingTitle := "Adresse d'Expédition:"
  const SubmissionNumberLabel := "Numéro de soumission: "
  const TableColumns := ["SKU", "Description", "Qté", "Prix Unitaire", "Total"]

  /** An entry of an address block: the bold title object, or one line of text. */
  datatype Entry = TitleEntry(title: string) | FieldEntry(text: string)

  /** `${city}, ${province} ${postalCode}`: never empty, since it always holds ", ". */
  function CityLine(a: Address): (r: string)
    ensures |r| >= 3 && r != ""
  {
    a.city + ", " + a.province + " " + a.postalCode
  }

  /** The array literal of `generateAddressText`, before filtering. */
  function AddressCandidates(title: string, a: Address): seq<Entry>
  {
    [ TitleEntry(title),
      FieldEntry(a.companyName),
      FieldEntry(a.contactName),
      FieldEntry(a.addressLine1),
      FieldEntry(a.addressLine2),
      FieldEntry(CityLine(a)),
      FieldEntry(a.country),
      FieldEntry(a.email) ]
  }

  /** `Boolean(entry)`: an object is always truthy, a string when it is not empty. */
  predicate Truthy(e: Entry)
  {
    e.TitleEntry? || e.text != ""
  }

  /** The entries that survive `.filter(Boolean)`. */
  function AddressEntries(title: string, a: Address): (r: seq<Entry>)
    ensures |r| >= 2 && r[0] == TitleEntry(title)
    ensures FieldEntry(CityLine(a)) in r
    ensures forall e :: e in r && e.FieldEntry? ==> e.text != ""
  {
    var candidates := AddressCandidates(title, a);
    var r := Filter(Truthy, candidates);
    assert r == [candidates[0]] + Filter(Truthy, candidates[1..]);
    FilterComplete(Truthy, candidates[1..], FieldEntry(CityLine(a)));
    r
  }

  /**
   * The kept entries are the title followed by exactly the non-empty fields, in the fixed
   * order company, contact, line 1, line 2, city line, country, email.
   */
  lemma AddressEntriesExact(title: string, a: Address)
    ensures IsSubsequence(AddressEntries(title, a), AddressCandidates(title, a))
    ensures forall s :: s in [a.companyName, a.contactName, a.addressLine1, a.addressLine2, a.country, a.email]
                        ==> (FieldEntry(s) in AddressEntries(title, a) <==> s != "")
  {
    var candidates := AddressCandidates(title, a);
    FilterIsSubsequence(Truthy, candidates);
    forall s | s in [a.companyName, a.contactName, a.addressLine1, a.addressLine2, a.country, a.email] && s != ""
      ensures FieldEntry(s) in AddressEntries(title, a) {
      assert FieldEntry(s) in candidates;
      FilterComplete(Truthy, candidates, FieldEntry(s));
    }
  }

  /** Each entry is kept as often as the array literal holds it when it is truthy, and never otherwise. */
  lemma AddressEntriesCount(title: string, a: Address)
    ensures forall e :: multiset(AddressEntries(title, a))[e]
                        == if Truthy(e) then multiset(AddressCandidates(title, a))[e] else 0
  {
    forall e ensures multiset(AddressEntries(title, a))[e]
                     == if Truthy(e) then multiset(AddressCandidates(title, a))[e] else 0 {
      FilterCount(Truthy, AddressCandidates(title, a), e);
    }
  }

  /** How JavaScript turns an entry into text when joining: the title object becomes "[object Object]". */
  function RenderAsWritten(e: Entry): string
  {
    match e
    case TitleEntry(_) => "[object Object]"
    case FieldEntry(t) => t
  }

  /** The evidently intended rendering: the title's own text. */
  function Render(e: Entry): string
  {
    match e
    case TitleEntry(t) => t
    case FieldEntry(t) => t
  }

  function LinesAsWritten(es: seq<Entry>): (r: seq<string>)
    ensures |r| == |es| && forall i :: 0 <= i < |es| ==> r[i] == RenderAsWritten(es[i])
  {
    seq(|es|, i requires 0 <= i < |es| => RenderAsWritten(es[i]))
  }

  function Lines(es: seq<Entry>): (r: seq<string>)
    ensures |r| == |es| && forall i :: 0 <= i < |es| ==> r[i] == Render(es[i])
  {
    seq(|es|, i requires 0 <= i < |es| => Render(es[i]))
  }

  /** `generateAddressText` as written: the kept entries joined with line breaks. */
  function AddressTextAsWritten(title: string, a: Address): string
  {
    Join(LinesAsWritten(AddressEntries(title, a)), '\n')
  }

  /** `generateAddressText` with the title printed as its text. */
  function AddressText(title: string, a: Address): string
  {
    Join(Lines(AddressEntries(title, a)), '\n')
  }

  /** As written, the block's first line is "[object Object]" whatever the title. */
  lemma AddressTextAsWrittenLosesTitle(title: string, a: Address)
    ensures AddressTextAsWritten(title, a)[..16] == "[object Object]\n"
  {
    var lines := LinesAsWritten(AddressEntries(title, a));
    assert Join(lines, '\n') == lines[0] + ['\n'] + Join(lines[1..], '\n');
  }

  /**
   * The text as written is the corrected text with its first line, the title, replaced by
   * "[object Object]": every other line is the same.
   */
  lemma AddressTextAsWrittenReplacesTitle(title: string, a: Address)
    ensures AddressTextAsWritten(title, a) == "[object Object]" + AddressText(title, a)[|title|..]
  {
    var es := AddressEntries(title, a);
    LaterEntriesAreFields(title, a);
    SameLinesAfterTitle(es);
    JoinReplacingHead(LinesAsWritten(es), Lines(es), '\n');
  }

  /** Entries that are all text after the first render the same either way from the second line on. */
  lemma SameLinesAfterTitle(es: seq<Entry>)
    requires |es| >= 1
    requires forall i :: 1 <= i < |es| ==> es[i].FieldEntry?
    ensures LinesAsWritten(es)[1..] == Lines(es)[1..]
  {
    var written, corrected := LinesAsWritten(es), Lines(es);
    forall i | 0 <= i < |es| - 1 ensures written[1..][i] == corrected[1..][i] {
      assert es[i + 1].FieldEntry?;
    }
  }

  /** Two joins that differ only in their first part differ only before the first separator. */
  lemma JoinReplacingHead(w: seq<string>, c: seq<string>, sep: char)
    requires |w| == |c| >= 2 && w[1..] == c[1..]
    ensures Join(w, sep) == w[0] + Join(c, sep)[|c[0]|..]
  {
    var tail := [sep] + Join(c[1..], sep);
    assert Join(c, sep) == c[0] + tail;
    assert (c[0] + tail)[|c[0]|..] == tail;
  }

  /** Only the first kept entry is the title object; the rest are text lines. */
  lemma LaterEntriesAreFields(title: string, a: Address)
    ensures forall i :: 1 <= i < |AddressEntries(title, a)| ==> AddressEntries(title, a)[i].FieldEntry?
  {
    LaterKeptAreFields(AddressCandidates(title, a));
  }

  lemma LaterKeptAreFields(c: seq<Entry>)
    requires |c| >= 1 && c[0].TitleEntry? && forall j :: 1 <= j < |c| ==> c[j].FieldEntry?
    ensures forall i :: 1 <= i < |Filter(Truthy, c)| ==> Filter(Truthy, c)[i].FieldEntry?
  {
    var rest := Filter(Truthy, c[1..]);
    assert c == [c[0]] + c[1..];
    assert Filter(Truthy, c) == [c[0]] + rest;
    forall i | 0 <= i < |rest| ensures rest[i].FieldEntry? {
      assert rest[i] in c[1..];
    }
  }

  /**
   * For an empty address the block reads "[object Object]", then the bare city line ",  ",
   * whichever title (billing or shipping) was passed.
   */
  lemma EmptyBlockAsWritten(title: string)
    ensures AddressTextAsWritten(title, EmptyAddress) == "[object Object]\n,  "
  {
    OnlyCityLineEntries(title, EmptyAddress);
    TwoEntriesAsWritten(TitleEntry(title), CityLine(EmptyAddress));
    assert CityLine(EmptyAddress) == ",  ";
  }

  lemma TwoEntriesAsWritten(t: Entry, line: string)
    requires t.TitleEntry?
    ensures Join(LinesAsWritten([t, FieldEntry(line)]), '\n') == "[object Object]\n" + line
  {
    var lines := LinesAsWritten([t, FieldEntry(line)]);
    assert lines[1..] == [line];
  }

  /** When every field but the city line is empty, only the title and the city line survive. */
  lemma OnlyCityLineEntries(title: string, a: Address)
    requires a.companyName == a.contactName == a.addressLine1 == a.addressLine2 == a.country == a.email == ""
    ensures AddressEntries(title, a) == [TitleEntry(title), FieldEntry(CityLine(a))]
  {
    KeepFirstAndSixth(AddressCandidates(title, a));
  }

  lemma KeepFirstAndSixth(s: seq<Entry>)
    requires |s| == 8 && Truthy(s[0]) && Truthy(s[5])
    requires forall i :: 0 <= i < 8 && i != 0 && i != 5 ==> !Truthy(s[i])
    ensures Filter(Truthy, s) == [s[0], s[5]]
  {
    FilterNoneKept(Truthy, s[6..]);
    assert s[5..][1..] == s[6..];
    assert Filter(Truthy, s[5..]) == [s[5]];
    FilterNoneKept(Truthy, s[1..5]);
    assert s[1..] == s[1..5] + s[5..];
    FilterAppend(Truthy, s[1..5], s[5..]);
  }

  /**
   * With the title rendered as text, and no field holding a line break, the block's lines are
   * exactly the kept entries: the title first, one line break between consecutive entries,
   * none before the first or after the last.
   */
  lemma AddressTextLines(title: string, a: Address)
    requires '\n' !in title
    requires forall f :: '\n' !in GetField(a, f)
    ensures Split(AddressText(title, a), '\n') == Lines(AddressEntries(title, a))
    ensures Split(AddressText(title, a), '\n')[0] == title
    ensures CityLine(a) in Split(AddressText(title, a), '\n')
  {
    var es := AddressEntries(title, a);
    var lines := Lines(es);
    EntriesWithoutBreak(title, a);
    forall i | 0 <= i < |lines| ensures '\n' !in lines[i] {
      assert es[i] in es;
    }
    SplitJoin(lines, '\n');
    var k :| 0 <= k < |es| && es[k] == FieldEntry(CityLine(a));
    assert lines[k] == CityLine(a);
  }

  /** No kept entry renders with a line break when neither the title nor any field holds one. */
  lemma EntriesWithoutBreak(title: string, a: Address)
    requires '\n' !in title
    requires forall f :: '\n' !in GetField(a, f)
    ensures forall e :: e in AddressEntries(title, a) ==> '\n' !in Render(e)
  {
    var c := AddressCandidates(title, a);
    assert '\n' !in CityLine(a) by {
      assert '\n' !in GetField(a, City) && '\n' !in GetField(a, Province) && '\n' !in GetField(a, PostalCode);
    }
    assert '\n' !in GetField(a, CompanyName) && '\n' !in GetField(a, ContactName);
    assert '\n' !in GetField(a, AddressLine1) && '\n' !in GetField(a, AddressLine2);
    assert '\n' !in GetField(a, Country) && '\n' !in GetField(a, Email);
    assert forall i :: 0 <= i < |c| ==> '\n' !in Render(c[i]);
    forall e | e in AddressEntries(title, a) ensures '\n' !in Render(e) {
      assert e in c;
    }
  }

  // ---------------------------------------------------------------- products table

  /** A table cell: text, a whole number, or an amount shown through the currency formatter. */
  datatype Cell = Text(text: string) | Count(n: int) | Money(amount: real)

  /** The row of one line item: SKU, description, quantity, unit price, line total. */
  function TableRow(item: LineItem): (row: seq<Cell>)
    ensures |row| == |TableColumns|
    ensures row[0] == Text(item.sku) && row[1] == Text(item.description) && row[2] == Count(item.quantity)
    ensures row[3] == Money(item.price) && row[4] == Money(LineAmount(item))
  {
    [Text(item.sku), Text(item.description), Count(item.quantity), Money(item.price), Money(LineAmount(item))]
  }

  /** The `forEach` that fills the table body: one row per line item, in list order. */
  method BuildTableRows(items: seq<LineItem>) returns (rows: seq<seq<Cell>>)
    ensures |rows| == |items|
    ensures forall i :: 0 <= i < |items| ==> rows[i] == TableRow(items[i])
  {
    rows := [];
    var k := 0;
    while k < |items|
      invariant 0 <= k <= |items|
      invariant |rows| == k
      invariant forall i :: 0 <= i < k ==> rows[i] == TableRow(items[i])
    {
      rows := rows + [TableRow(items[k])];
      k := k + 1;
    }
  }

  // ---------------------------------------------------------------- submission number

  /** `SUB-${Date.now()}` for a clock reading of `timestamp` milliseconds. */
  function SubmissionId(timestamp: nat): (id: string)
    ensures |id| > 4 && id[..4] == "SUB-"
    ensures forall i :: 4 <= i < |id| ==> IsDigit(id[i])
    ensures ParseInt(id[4..]) == Some(timestamp)
  {
    ParseIntOfNatToString(timestamp);
    var id := "SUB-" + NatToString(timestamp);
    assert id[4..] == NatToString(timestamp);
    id
  }

  /** Distinct clock readings give distinct submission numbers. */
  lemma SubmissionIdInjective(a: nat, b: nat)
    requires SubmissionId(a) == SubmissionId(b)
    ensures a == b
  {
    assert SubmissionId(a)[4..] == SubmissionId(b)[4..];
  }

  /** What the library is asked to put in the document and under which file name. */
  datatype Document = Document(
    numberLine: string,
    billingText: string,
    shippingText: string,
    columns: seq<string>,
    rows: seq<seq<Cell>>,
    subtotal: real,
    discountPercentage: real,
    discountAmount: real,
    total: real,
    fileName: string)

  /**
   * `generateSubmissionPdf` for a clock reading of `timestamp`: the returned number is the
   * one printed in the header and the one in the saved file's name.
   */
  method GenerateSubmissionPdf(
    items: seq<LineItem>, subtotal: real, discountPercentage: real, total: real,
    billing: Address, shipping: Address, timestamp: nat)
    returns (doc: Document, id: string)
    ensures id == SubmissionId(timestamp)
    ensures doc.fileName == "Soumission_" + id + ".pdf"
    ensures doc.numberLine == SubmissionNumberLabel + id
    ensures |doc.fileName| == 15 + |id| && doc.fileName[11..|doc.fileName| - 4] == id
    ensures doc.fileName[..11] == "Soumission_" && doc.fileName[|doc.fileName| - 4..] == ".pdf"
    ensures doc.billingText == AddressText(BillingTitle, billing)
    ensures doc.shippingText == AddressText(ShippingTitle, shipping)
    ensures doc.columns == TableColumns
    ensures |doc.rows| == |items| && forall i :: 0 <= i < |items| ==> doc.rows[i] == TableRow(items[i])
    ensures doc.subtotal == subtotal && doc.total == total
    ensures doc.discountPercentage == discountPercentage
    ensures doc.discountAmount == PercentOf(subtotal, discountPercentage)
    ensures doc.discountAmount == subtotal * discountPercentage / 100.0
  {
    id := SubmissionId(timestamp);
    var rows := BuildTableRows(items);
    var fileName := "Soumission_" + id + ".pdf";
    doc := Document(
      SubmissionNumberLabel + id,
      AddressText(BillingTitle, billing),
      AddressText(ShippingTitle, shipping),
      TableColumns,
      rows,
      subtotal,
      discountPercentage,
      PercentOf(subtotal, discountPercentage),
      total,
      fileName);
  }
}
