/** The day detail sheet: the list of one day's purchases, optimistic
    deletion, the day total and how amounts and categories are shown. */
module DayDetail {
  import opened Ledger
  import Decimal

  // ---------------------------------------------------------------------
  // Deleting by id

  /** `prev.filter(e => e.id !== id)`. */
  function WithoutId(s: seq<Entry>, id: string): (r: seq<Entry>)
    ensures |r| <= |s|
  {
    if s == [] then []
    else WithoutId(s[..|s| - 1], id) + (if s[|s| - 1].id != id then [s[|s| - 1]] else [])
  }

  /** The entries the filter drops. */
  function WithId(s: seq<Entry>, id: string): seq<Entry> {
    if s == [] then []
    else WithId(s[..|s| - 1], id) + (if s[|s| - 1].id == id then [s[|s| - 1]] else [])
  }

  /** After the filter no entry has the id, every other entry is still there,
      and a list without the id is left as it was. */
  lemma {:induction false} WithoutIdSpec(s: seq<Entry>, id: string)
    ensures forall e :: e in WithoutId(s, id) <==> e in s && e.id != id
    ensures forall i :: 0 <= i < |WithoutId(s, id)| ==> WithoutId(s, id)[i].id != id
    ensures (forall i :: 0 <= i < |s| ==> s[i].id != id) ==> WithoutId(s, id) == s
  {
    if s != [] {
      var init, last := s[..|s| - 1], s[|s| - 1];
      WithoutIdSpec(init, id);
      assert s == init + [last];
      if forall i :: 0 <= i < |s| ==> s[i].id != id {
        assert forall i :: 0 <= i < |init| ==> init[i].id != id by {
          forall i | 0 <= i < |init| ensures init[i].id != id {
            assert init[i] == s[i];
          }
        }
      }
    }
  }

  /** The filter keeps the relative order: it commutes with concatenation. */
  lemma {:induction false} WithoutIdConcat(a: seq<Entry>, b: seq<Entry>, id: string)
    ensures WithoutId(a + b, id) == WithoutId(a, id) + WithoutId(b, id)
  {
    if b == [] {
      assert a + b == a;
    } else {
      var init := b[..|b| - 1];
      assert (a + b)[..|a + b| - 1] == a + init;
      WithoutIdConcat(a, init, id);
    }
  }

  /** Deleting the same id twice is the same as deleting it once. */
  lemma WithoutIdIdempotent(s: seq<Entry>, id: string)
    ensures WithoutId(WithoutId(s, id), id) == WithoutId(s, id)
  {
    WithoutIdSpec(s, id);
    WithoutIdSpec(WithoutId(s, id), id);
  }

  /** The total splits into what is kept and what is deleted. */
  lemma {:induction false} TotalSplitsById(s: seq<Entry>, id: string)
    ensures TotalAmount(s) == TotalAmount(WithoutId(s, id)) + TotalAmount(WithId(s, id))
  {
    if s != [] {
      var init, last := s[..|s| - 1], s[|s| - 1];
      TotalSplitsById(init, id);
      assert [last][..0] == [];
      assert TotalAmount([last]) == last.amountSpent;
      if last.id == id {
        assert WithoutId(s, id) == WithoutId(init, id);
        assert WithId(s, id) == WithId(init, id) + [last];
        TotalAmountConcat(WithId(init, id), [last]);
      } else {
        assert WithId(s, id) == WithId(init, id);
        assert WithoutId(s, id) == WithoutId(init, id) + [last];
        TotalAmountConcat(WithoutId(init, id), [last]);
      }
    }
  }

  // ---------------------------------------------------------------------
  // The list held by the sheet

  class DayDetailModal {
    /** The `localEntries` state shown in the list. */
    var localEntries: seq<Entry>
    /** The ids handed to the parent's `onDeleteEntry`, in call order. */
    var deletedIds: seq<string>

    /** `useState(entries)`. */
    constructor (entries: seq<Entry>)
      ensures localEntries == entries && deletedIds == []
    {
      localEntries := entries;
      deletedIds := [];
    }

    /** The effect that runs when the `entries` prop changes. */
    method EntriesChanged(entries: seq<Entry>)
      modifies this
      ensures localEntries == entries
      ensures deletedIds == old(deletedIds)
    {
      localEntries := entries;
    }

    /** `handleDeleteEntry`: drop the entry from the local list at once, then
        tell the parent. */
    method DeleteEntry(id: string)
      modifies this
      ensures localEntries == WithoutId(old(localEntries), id)
      ensures deletedIds == old(deletedIds) + [id]
    {
      localEntries := WithoutId(localEntries, id);
      deletedIds := deletedIds + [id];
    }

    /** `totalSpent`: the sum over the local list. */
    function TotalSpent(): (t: int)
      reads this
      ensures localEntries == [] ==> t == 0
    {
      TotalAmount(localEntries)
    }
  }

  /** What a deletion does to the sheet's total: it falls by exactly the
      amounts of the entries with that id, and never rises when amounts are
      non-negative. */
  lemma DeletionLowersTotal(s: seq<Entry>, id: string)
    ensures TotalAmount(WithoutId(s, id)) == TotalAmount(s) - TotalAmount(WithId(s, id))
    ensures NonNegativeAmounts(s) ==> TotalAmount(WithoutId(s, id)) <= TotalAmount(s)
  {
    TotalSplitsById(s, id);
    if NonNegativeAmounts(s) {
      WithIdNonNegative(s, id);
    }
  }

  lemma {:induction false} WithIdNonNegative(s: seq<Entry>, id: string)
    requires NonNegativeAmounts(s)
    ensures TotalAmount(WithId(s, id)) >= 0
  {
    if s != [] {
      var init, last := s[..|s| - 1], s[|s| - 1];
      WithIdNonNegative(init, id);
      if last.id == id {
        assert WithId(s, id) == WithId(init, id) + [last];
        TotalAmountConcat(WithId(init, id), [last]);
        assert [last][..0] == [];
      } else {
        assert WithId(s, id) == WithId(init, id);
      }
    }
  }

  // ---------------------------------------------------------------------
  // Colours

  /** `Colors.dark.primary`; it is the same green as Weed's badge. */
  const PrimaryColor: string := "#00E676"
  const WeedColor: string := "#00E676"
  const AlcoholColor: string := "#FF6B6B"
  const TobaccoColor: string := "#FFA726"
  const OtherColor: string := "#42A5F5"

  /** `getCategoryColor`: a fixed badge colour per category, the primary
      colour for anything else. */
  function CategoryColor(category: string): (c: string)
    ensures category == "Weed" ==> c == WeedColor
    ensures category == "Alcohol" ==> c == AlcoholColor
    ensures category == "Tobacco" ==> c == TobaccoColor
    ensures category == "Other" ==> c == OtherColor
    ensures category != "Weed" && category != "Alcohol" && category != "Tobacco" && category != "Other" ==> c == PrimaryColor
  {
    match category
    case "Weed" => WeedColor
    case "Alcohol" => AlcoholColor
    case "Tobacco" => TobaccoColor
    case "Other" => OtherColor
    case _ => PrimaryColor
  }

  /** The four categories get four different colours. */
  lemma CategoryColorsDistinct()
    ensures var cs := [CategoryColor("Weed"), CategoryColor("Alcohol"), CategoryColor("Tobacco"), CategoryColor("Other")];
      forall i, j :: 0 <= i < j < 4 ==> cs[i] != cs[j]
  {
  }

  // ---------------------------------------------------------------------
  // Amounts

  function TwoDigits(n: nat): (s: string)
    requires n < 100
    ensures |s| == 2 && Decimal.AllDigits(s)
  {
    [Decimal.DigitChar(n / 10), Decimal.DigitChar(n % 10)]
  }

  function Magnitude(cents: int): nat {
    if cents < 0 then -cents else cents
  }

  function SignText(cents: int): string {
    if cents < 0 then "-" else ""
  }

  /** `toFixed(2)` of a whole number of cents: sign, whole units, '.', two
      digits of cents. */
  function ToFixed2(cents: int): string {
    SignText(cents) + Decimal.NatStr(Magnitude(cents) / 100) + "." + TwoDigits(Magnitude(cents) % 100)
  }

  /** `replace(from, to)` with a string pattern: only the first occurrence. */
  function ReplaceFirst(s: string, from: char, to: char): string {
    if s == [] then []
    else if s[0] == from then [to] + s[1..]
    else [s[0]] + ReplaceFirst(s[1..], from, to)
  }

  lemma {:induction false} ReplaceFirstAt(p: string, from: char, to: char, q: string)
    requires from !in p
    ensures ReplaceFirst(p + [from] + q, from, to) == p + [to] + q
  {
    if p != [] {
      assert p[0] in p;
      assert (p + [from] + q)[1..] == p[1..] + [from] + q;
      ReplaceFirstAt(p[1..], from, to, q);
    } else {
      assert p + [from] + q == [from] + q;
    }
  }

  /** `toFixed(2)` holds exactly one '.', so the replacement turns it into
      the separator. */
  lemma ReplacedFixed(cents: int)
    ensures var w, q := Decimal.NatStr(Magnitude(cents) / 100), TwoDigits(Magnitude(cents) % 100);
      ReplaceFirst(ToFixed2(cents), '.', ',') == SignText(cents) + w + [','] + q
  {
    var w, q := Decimal.NatStr(Magnitude(cents) / 100), TwoDigits(Magnitude(cents) % 100);
    assert ToFixed2(cents) == (SignText(cents) + w) + ['.'] + q;
    ReplaceFirstAt(SignText(cents) + w, '.', ',', q);
  }

  /** `amount.toFixed(2).replace('.', ',')`: the shown amount. */
  function FormatEuro(cents: int): (s: string)
    ensures '.' !in s
    ensures |s| >= 4 && s[|s| - 3] == ',' && Decimal.AllDigits(s[|s| - 2..])
    ensures cents >= 0 ==> Decimal.AllDigits(s[..|s| - 3])
  {
    ReplacedFixed(cents);
    var q := TwoDigits(Magnitude(cents) % 100);
    var s := ReplaceFirst(ToFixed2(cents), '.', ',');
    assert s[|s| - 2..] == q;
    s
  }

  /** Reads "units,cc" back into cents. */
  function ParseUnsigned(body: string): Option<nat> {
    if |body| >= 4 && body[|body| - 3] == ',' && Decimal.AllDigits(body[..|body| - 3]) && Decimal.AllDigits(body[|body| - 2..]) then
      Some(Decimal.ParseNat(body[..|body| - 3]) * 100 + Decimal.ParseNat(body[|body| - 2..]))
    else None
  }

  /** Reads a shown amount, with its optional minus sign, back into cents. */
  function ParseEuro(s: string): Option<int> {
    if |s| > 0 && s[0] == '-' then
      match ParseUnsigned(s[1..])
      case Some(v) => Some(-(v as int))
      case None => None
    else
      match ParseUnsigned(s)
      case Some(v) => Some(v)
      case None => None
  }

  lemma ParseTwoDigits(n: nat)
    requires n < 100
    ensures Decimal.ParseNat(TwoDigits(n)) == n
  {
    var s := TwoDigits(n);
    assert s[..1][..0] == [];
    assert s[..1] == [s[0]];
    assert Decimal.DigitValue(s[0]) == n / 10;
    assert Decimal.DigitValue(s[1]) == n % 10;
    assert Decimal.ParseNat(s[..1]) == n / 10;
  }

  lemma ParseUnsignedOfParts(w: string, q: string)
    requires |w| >= 1 && Decimal.AllDigits(w) && |q| == 2 && Decimal.AllDigits(q)
    ensures ParseUnsigned(w + [','] + q) == Some(Decimal.ParseNat(w) * 100 + Decimal.ParseNat(q))
  {
    var body := w + [','] + q;
    assert body[..|body| - 3] == w;
    assert body[|body| - 2..] == q;
  }

  /** The unsigned part "units,cc" of a shown amount reads back to its cents. */
  lemma UnsignedRoundTrip(m: nat)
    ensures var body := Decimal.NatStr(m / 100) + [','] + TwoDigits(m % 100);
      ParseUnsigned(body) == Some(m) && body != [] && body[0] != '-'
  {
    var w, q := Decimal.NatStr(m / 100), TwoDigits(m % 100);
    ParseUnsignedOfParts(w, q);
    Decimal.ParseNatStr(m / 100);
    ParseTwoDigits(m % 100);
    assert Decimal.IsDigit((w + [','] + q)[0]);
  }

  /** The shown amount determines the cents: reading it back gives them. */
  lemma FormatEuroRoundTrip(cents: int)
    ensures ParseEuro(FormatEuro(cents)) == Some(cents)
  {
    var m := Magnitude(cents);
    var w, q := Decimal.NatStr(m / 100), TwoDigits(m % 100);
    var body := w + [','] + q;
    ReplacedFixed(cents);
    UnsignedRoundTrip(m);
    var s := FormatEuro(cents);
    if cents < 0 {
      assert s == "-" + body;
      assert s[1..] == body;
    } else {
      assert s == body;
    }
  }
}
