/**
 Split-payment declarations of a courier (src/turbo/constantes/turbo.constante.ts).

 A courier declares how the customer paid: a list of lines, a single means, or nothing.
 `Normalise` turns any declaration into lines aggregated by means. Amounts are whole FCFA;
 an amount that `Number(...)` does not turn into a finite number is `None`.
 */
module Encaissement {
  import opened Wrappers

  datatype Mode = Cash | MobileMoney | Card | Wallet

  datatype Means = Means(mode: Mode, source: string, caption: string)

  datatype Line = Line(means: Means, amount: int)

  /** One raw entry of the `encaissements` list. */
  datatype RawLine = RawLine(code: Option<string>, amount: Option<int>)

  /** `entries` is empty when the field is absent or not a list. */
  datatype Declaration = Declaration(entries: seq<RawLine>, code: Option<string>, amount: Option<int>)

  const CASH := Means(Cash, "cash", "Espèces")

  /** The closed list of codes agreed with Turbo; the accounting mode is derived from the code. */
  function ClosedList(key: string): Option<Means> {
    if key == "cash" then Some(CASH)
    else if key == "orange-ci" then Some(Means(MobileMoney, "orange-ci", "Orange Money"))
    else if key == "mtn-ci" then Some(Means(MobileMoney, "mtn-ci", "MTN Mobile Money"))
    else if key == "moov-ci" then Some(Means(MobileMoney, "moov-ci", "MOOV Money"))
    else if key == "wave" then Some(Means(Wallet, "wave", "Wave"))
    else if key == "card" then Some(Means(Card, "card", "Carte bancaire"))
    else None
  }

  predicate IsBlank(c: char) {
    c in " \t\n\r" || c == '\U{000B}' || c == '\U{000C}' || c == '\U{00A0}' || c == '\U{FEFF}'
    || c == '\U{1680}' || '\U{2000}' <= c <= '\U{200A}' || c == '\U{2028}' || c == '\U{2029}'
    || c == '\U{202F}' || c == '\U{205F}' || c == '\U{3000}'
  }

  function Trim(s: string): string {
    if s != "" && IsBlank(s[0]) then Trim(s[1..])
    else if s != "" && IsBlank(s[|s| - 1]) then Trim(s[..|s| - 1])
    else s
  }

  /** Only ASCII letters matter: no other character lowers to one used in the closed list. */
  function Lower(s: string): (r: string) {
    seq(|s|, i requires 0 <= i < |s| => if 'A' <= s[i] <= 'Z' then s[i] + 32 as char else s[i])
  }

  /** Absent or unknown codes are read as cash. */
  function Resolve(code: Option<string>): Means {
    var key := match code case None => "" case Some(c) => Lower(Trim(c));
    match ClosedList(key) case Some(means) => means case None => CASH
  }

  predicate ValidEntry(e: RawLine) {
    e.amount.Some? && e.amount.value > 0
  }

  /** The position of the first line with this source, or -1. */
  function IndexOf(lines: seq<Line>, source: string): (i: int)
    ensures -1 <= i < |lines|
    ensures i == -1 ==> forall k | 0 <= k < |lines| :: lines[k].means.source != source
    ensures i >= 0 ==> lines[i].means.source == source
    decreases |lines|
  {
    if lines == [] then -1
    else
      var j := IndexOf(lines[..|lines| - 1], source);
      if j >= 0 then j
      else if lines[|lines| - 1].means.source == source then |lines| - 1
      else -1
  }

  /** One turn of the loop over the declared list. */
  function Absorb(lines: seq<Line>, e: RawLine): seq<Line> {
    if !ValidEntry(e) then lines
    else
      var means := Resolve(e.code);
      var i := IndexOf(lines, means.source);
      if i >= 0 then lines[i := lines[i].(amount := lines[i].amount + e.amount.value)]
      else lines + [Line(means, e.amount.value)]
  }

  function Aggregate(entries: seq<RawLine>): seq<Line> {
    if entries == [] then []
    else Absorb(Aggregate(entries[..|entries| - 1]), entries[|entries| - 1])
  }

  function SingleField(d: Declaration, total: int): Line {
    Line(Resolve(d.code), if d.amount.Some? && d.amount.value > 0 then d.amount.value else total)
  }

  function Normalised(d: Declaration, total: int): seq<Line> {
    var lines := Aggregate(d.entries);
    if lines != [] then lines else [SingleField(d, total)]
  }

  method FindLine(lines: seq<Line>, source: string) returns (i: int)
    ensures i == IndexOf(lines, source)
  {
    for k := 0 to |lines|
      invariant IndexOf(lines[..k], source) == -1
    {
      assert lines[..k + 1][..k] == lines[..k];
      if lines[k].means.source == source {
        FirstMatchStays(lines, source, k);
        return k;
      }
    }
    assert lines[..|lines|] == lines;
    return -1;
  }

  lemma {:induction false} FirstMatchStays(lines: seq<Line>, source: string, k: nat)
    requires k < |lines| && lines[k].means.source == source
    requires IndexOf(lines[..k], source) == -1
    ensures IndexOf(lines, source) == k
    decreases |lines|
  {
    if k < |lines| - 1 {
      assert lines[..|lines| - 1][..k] == lines[..k];
      FirstMatchStays(lines[..|lines| - 1], source, k);
    }
  }

  method Normalise(d: Declaration, total: int) returns (lines: seq<Line>)
    ensures lines == Normalised(d, total)
    ensures total > 0 ==> lines != [] && AllPositive(lines) && DistinctSources(lines)
  {
    hide Resolve;
    lines := [];
    for k := 0 to |d.entries|
      invariant lines == Aggregate(d.entries[..k])
    {
      assert d.entries[..k + 1][..k] == d.entries[..k];
      var e := d.entries[k];
      var means := Resolve(e.code);
      if e.amount.None? || e.amount.value <= 0 { continue; }
      var i := FindLine(lines, means.source);
      if i >= 0 {
        lines := lines[i := lines[i].(amount := lines[i].amount + e.amount.value)];
      } else {
        lines := lines + [Line(means, e.amount.value)];
      }
    }
    assert d.entries[..|d.entries|] == d.entries;
    if lines == [] {
      var means := Resolve(d.code);
      var amount := if d.amount.Some? && d.amount.value > 0 then d.amount.value else total;
      lines := [Line(means, amount)];
    }
    if total > 0 {
      NormalisedConserves(d, total, "");
    }
    hide *;
  }

  // ---- What a normalised declaration guarantees ------------------------------------

  ghost predicate DistinctSources(lines: seq<Line>) {
    forall i, j | 0 <= i < j < |lines| :: lines[i].means.source != lines[j].means.source
  }

  ghost predicate AllPositive(lines: seq<Line>) {
    forall i | 0 <= i < |lines| :: lines[i].amount > 0
  }

  /** What the lines say was paid through one source. */
  ghost function PaidThrough(lines: seq<Line>, source: string): int {
    if lines == [] then 0
    else PaidThrough(lines[..|lines| - 1], source)
         + if lines[|lines| - 1].means.source == source then lines[|lines| - 1].amount else 0
  }

  /** What the valid entries of a raw list declare for one source. */
  ghost function DeclaredThrough(entries: seq<RawLine>, source: string): int {
    if entries == [] then 0
    else DeclaredThrough(entries[..|entries| - 1], source) + EntryThrough(entries[|entries| - 1], source)
  }

  ghost function EntryThrough(e: RawLine, source: string): int {
    if e.amount.Some? && e.amount.value > 0 && Resolve(e.code).source == source then e.amount.value else 0
  }

  ghost function Total(lines: seq<Line>): int {
    if lines == [] then 0 else Total(lines[..|lines| - 1]) + lines[|lines| - 1].amount
  }

  /** An amount that is no positive number counts for nothing. */
  function PositiveAmount(e: RawLine): int {
    if e.amount.Some? && e.amount.value > 0 then e.amount.value else 0
  }

  ghost function DeclaredTotal(entries: seq<RawLine>): int {
    if entries == [] then 0
    else DeclaredTotal(entries[..|entries| - 1])
         + PositiveAmount(entries[|entries| - 1])
  }

  lemma {:induction false} BumpedLine(lines: seq<Line>, i: nat, extra: int, source: string)
    requires i < |lines|
    ensures var bumped := lines[i := lines[i].(amount := lines[i].amount + extra)];
            && PaidThrough(bumped, source)
               == PaidThrough(lines, source) + (if lines[i].means.source == source then extra else 0)
            && Total(bumped) == Total(lines) + extra
    decreases |lines|
  {
    var n := |lines| - 1;
    var bumped := lines[i := lines[i].(amount := lines[i].amount + extra)];
    if i == n {
      assert bumped[..n] == lines[..n];
    } else {
      BumpedLine(lines[..n], i, extra, source);
      assert bumped[..n] == lines[..n][i := lines[i].(amount := lines[i].amount + extra)];
    }
  }

  lemma {:induction false} AbsorbConserves(lines: seq<Line>, e: RawLine, source: string)
    requires DistinctSources(lines) && AllPositive(lines)
    ensures DistinctSources(Absorb(lines, e)) && AllPositive(Absorb(lines, e))
    ensures PaidThrough(Absorb(lines, e), source) == PaidThrough(lines, source) + EntryThrough(e, source)
    ensures Total(Absorb(lines, e)) == Total(lines) + if ValidEntry(e) then e.amount.value else 0
    ensures Absorb(lines, e) == [] <==> lines == [] && !ValidEntry(e)
  {
    if ValidEntry(e) {
      var means := Resolve(e.code);
      var i := IndexOf(lines, means.source);
      if i >= 0 {
        BumpedLine(lines, i, e.amount.value, source);
      } else {
        assert (lines + [Line(means, e.amount.value)])[..|lines|] == lines;
      }
    }
  }

  lemma {:induction false} AggregateConserves(entries: seq<RawLine>, source: string)
    ensures DistinctSources(Aggregate(entries)) && AllPositive(Aggregate(entries))
    ensures PaidThrough(Aggregate(entries), source) == DeclaredThrough(entries, source)
    ensures Total(Aggregate(entries)) == DeclaredTotal(entries)
    ensures Aggregate(entries) == [] <==> forall e | e in entries :: !ValidEntry(e)
    decreases |entries|
  {
    hide Resolve, Absorb, EntryThrough;
    if entries != [] {
      var init := entries[..|entries| - 1];
      AggregateConserves(init, source);
      AbsorbConserves(Aggregate(init), entries[|entries| - 1], source);
      assert entries == init + [entries[|entries| - 1]];
    }
  }

  /** Main result: whatever was declared, the lines are usable and conserve the money declared. */
  lemma NormalisedConserves(d: Declaration, total: int, source: string)
    requires total > 0
    ensures var lines := Normalised(d, total);
            && lines != [] && AllPositive(lines) && DistinctSources(lines)
            && ((exists e :: e in d.entries && ValidEntry(e)) ==>
                  && PaidThrough(lines, source) == DeclaredThrough(d.entries, source)
                  && Total(lines) == DeclaredTotal(d.entries))
            && ((forall e | e in d.entries :: !ValidEntry(e)) ==>
                  lines == [SingleField(d, total)])
  {
    AggregateConserves(d.entries, source);
  }

  /** The order of the declared lines does not change what is booked through any source. */
  lemma {:induction false} OrderOfEntriesIrrelevant(d: Declaration, d': Declaration, total: int, source: string)
    requires multiset(d.entries) == multiset(d'.entries) && d.code == d'.code && d.amount == d'.amount
    ensures PaidThrough(Normalised(d, total), source) == PaidThrough(Normalised(d', total), source)
    ensures Total(Normalised(d, total)) == Total(Normalised(d', total))
    ensures |Normalised(d, total)| == 1 && Aggregate(d.entries) == [] ==> Normalised(d, total) == Normalised(d', total)
  {
    AggregateConserves(d.entries, source);
    AggregateConserves(d'.entries, source);
    DeclaredIsASum(d.entries, d'.entries, source);
    assert forall e :: e in d.entries <==> e in multiset(d.entries);
    assert forall e :: e in d'.entries <==> e in multiset(d'.entries);
  }

  lemma {:induction false} DeclaredIsASum(a: seq<RawLine>, b: seq<RawLine>, source: string)
    requires multiset(a) == multiset(b)
    ensures DeclaredThrough(a, source) == DeclaredThrough(b, source)
    ensures DeclaredTotal(a) == DeclaredTotal(b)
    decreases |a|
  {
    hide Resolve, EntryThrough;
    if a == [] {
      assert |b| == |multiset(b)| == 0;
    } else {
      var n := |a| - 1;
      var last := a[n];
      assert a == a[..n] + [last];
      assert last in multiset(b);
      var k :| 0 <= k < |b| && b[k] == last;
      var rest := b[..k] + b[k + 1..];
      assert b == b[..k] + [last] + b[k + 1..];
      assert multiset(a[..n]) == multiset(a) - multiset{last} == multiset(rest);
      DeclaredIsASum(a[..n], rest, source);
      DeclaredWithout(b, k, source);
    }
  }

  lemma {:induction false} DeclaredWithout(b: seq<RawLine>, k: nat, source: string)
    requires k < |b|
    ensures DeclaredThrough(b, source)
            == DeclaredThrough(b[..k] + b[k + 1..], source) + EntryThrough(b[k], source)
    ensures DeclaredTotal(b)
            == DeclaredTotal(b[..k] + b[k + 1..]) + if ValidEntry(b[k]) then b[k].amount.value else 0
    decreases |b|
  {
    var n := |b| - 1;
    var rest := b[..k] + b[k + 1..];
    if k == n {
      assert rest == b[..n];
    } else {
      DeclaredWithout(b[..n], k, source);
      assert rest[..|rest| - 1] == b[..n][..k] + b[..n][k + 1..];
    }
  }

  lemma {:induction false} TrimmedEnds(s: string)
    ensures Trim(s) == "" || (!IsBlank(Trim(s)[0]) && !IsBlank(Trim(s)[|Trim(s)| - 1]))
    decreases |s|
  {
    if s != "" && IsBlank(s[0]) {
      TrimmedEnds(s[1..]);
    } else if s != "" && IsBlank(s[|s| - 1]) {
      TrimmedEnds(s[..|s| - 1]);
    }
  }

  /** Case and surrounding blanks do not matter. */
  lemma CaseAndBlanksIrrelevant(s: string)
    ensures Resolve(Some(s)) == Resolve(Some(Lower(Trim(s))))
  {
    TrimmedEnds(s);
    var key := Lower(Trim(s));
    hide ClosedList, Trim;
    assert key == "" || (!IsBlank(key[0]) && !IsBlank(key[|key| - 1]));
    TrimKeeps(key);
    assert Lower(key) == key;
  }

  lemma TrimKeeps(s: string)
    requires s == "" || (!IsBlank(s[0]) && !IsBlank(s[|s| - 1]))
    ensures Trim(s) == s
  {
  }

  /** Every source booked is one of the six agreed codes, and a booked source reads back as itself. */
  lemma ResolveReadsBack(code: Option<string>)
    ensures ClosedList(Resolve(code).source) == Some(Resolve(code))
    ensures Resolve(Some(Resolve(code).source)) == Resolve(code)
  {
    var source := Resolve(code).source;
    hide ClosedList;
    var key := match code case None => "" case Some(c) => Lower(Trim(c));
    ListedUnderItsSource(key);
    ListedUnderItsSource("cash");
    PlainCode(source);
  }

  lemma ListedUnderItsSource(key: string)
    ensures ClosedList(key).Some? ==> ClosedList(key).value.source == key && Plain(key)
    ensures ClosedList("cash") == Some(CASH) && CASH.source == "cash"
  {
  }

  predicate Plain(s: string) {
    s != "" && forall i | 0 <= i < |s| :: 'a' <= s[i] <= 'z' || s[i] == '-'
  }

  lemma PlainCode(s: string)
    requires Plain(s)
    ensures Lower(Trim(s)) == s
  {
    assert Lower(s) == s;
  }

  // ---- The agreed list ---------------------------------------------------------------

  /** Main result: the six agreed codes, each with its accounting mode; Wave is a wallet, not mobile money. */
  lemma SixMeans()
    ensures Resolve(Some("cash")) == Means(Cash, "cash", "Espèces")
    ensures Resolve(Some("orange-ci")) == Means(MobileMoney, "orange-ci", "Orange Money")
    ensures Resolve(Some("mtn-ci")) == Means(MobileMoney, "mtn-ci", "MTN Mobile Money")
    ensures Resolve(Some("moov-ci")) == Means(MobileMoney, "moov-ci", "MOOV Money")
    ensures Resolve(Some("wave")) == Means(Wallet, "wave", "Wave")
    ensures Resolve(Some("card")) == Means(Card, "card", "Carte bancaire")
  {
    hide Resolve, ClosedList;
    Listed("cash");
    Listed("orange-ci");
    Listed("mtn-ci");
    Listed("moov-ci");
    Listed("wave");
    Listed("card");
  }

  /** One code of the list, compared with the six. */
  lemma Listed(code: string)
    requires Plain(code)
    ensures code == "cash" ==> Resolve(Some(code)) == Means(Cash, "cash", "Espèces")
    ensures code == "orange-ci" ==> Resolve(Some(code)) == Means(MobileMoney, "orange-ci", "Orange Money")
    ensures code == "mtn-ci" ==> Resolve(Some(code)) == Means(MobileMoney, "mtn-ci", "MTN Mobile Money")
    ensures code == "moov-ci" ==> Resolve(Some(code)) == Means(MobileMoney, "moov-ci", "MOOV Money")
    ensures code == "wave" ==> Resolve(Some(code)) == Means(Wallet, "wave", "Wave")
    ensures code == "card" ==> Resolve(Some(code)) == Means(Card, "card", "Carte bancaire")
  {
    PlainCode(code);
    hide Trim, Lower;
  }

  /** Main result: any other code, and none, is cash. */
  lemma OtherCodesAreCash(code: Option<string>)
    requires code.Some? ==> Lower(Trim(code.value)) !in {"cash", "orange-ci", "mtn-ci", "moov-ci", "wave", "card"}
    ensures Resolve(code) == Means(Cash, "cash", "Espèces")
  {
    hide Trim, Lower;
  }

  /** Main result: blanks on either side of a code are trimmed away. */
  lemma {:induction false} BlanksAround(s: string, c: char)
    requires c in " \t\r\n"
    ensures Trim([c] + s) == Trim(s) == Trim(s + [c])
    decreases |s|
  {
    assert ([c] + s)[1..] == s && (s + [c])[..|s|] == s;
    if s != "" && IsBlank(s[0]) {
      BlanksAround(s[1..], c);
      assert (s + [c])[1..] == s[1..] + [c];
    } else if s == "" {
      assert [c] + s == s + [c] == [c];
    }
    hide IsBlank;
  }

  /** Main result: the letters of a code are read as small ones, and nothing else in it changes. */
  lemma SmallLetters(s: string, i: nat)
    requires i < |s|
    ensures |Lower(s)| == |s|
    ensures 'A' <= s[i] <= 'Z' ==> 'a' <= Lower(s)[i] <= 'z' && Lower(s)[i] - 'a' == s[i] - 'A'
    ensures !('A' <= s[i] <= 'Z') ==> Lower(s)[i] == s[i]
  {
  }

  /** Main result: without a valid line, one means carries the amount declared if positive, else the whole total. */
  lemma SingleMeans(d: Declaration, total: int)
    requires forall e | e in d.entries :: e.amount == None || e.amount.value <= 0
    ensures |Normalised(d, total)| == 1
    ensures var line := Normalised(d, total)[0];
            && line.means == Resolve(d.code)
            && line.amount == if d.amount.Some? && d.amount.value > 0 then d.amount.value else total
  {
    AggregateConserves(d.entries, "");
    hide Resolve, Aggregate;
  }
}
