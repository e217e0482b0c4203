/** Raw queries: moving the placeholders of a given text up, and the texts on which that is right. */
module RawQuery {
  import opened Wrappers
  import opened Texts
  import opened Serializing

  function Reference(i: nat): string {
    "$" + Decimal(i)
  }

  /** Replaces the first $i by $k, then the first $(i+1) behind it by $(k+1), and so on. */
  function Shifted(s: string, i: nat, k: nat): string
    decreases |s|
  {
    if s == "" then ""
    else if Reference(i) <= s then PutMark(k, Shifted(s[|Reference(i)|..], i + 1, k + 1))
    else [s[0]] + Shifted(s[1..], i, k)
  }

  /** How many placeholders are replaced. */
  function Replaced(s: string, i: nat): nat
    decreases |s|
  {
    if s == "" then 0
    else if Reference(i) <= s then 1 + Replaced(s[|Reference(i)|..], i + 1)
    else Replaced(s[1..], i)
  }

  // ---------- The search loop ----------

  predicate Occurs(s: string, sought: string, at: nat) {
    at + |sought| <= |s| && s[at..at + |sought|] == sought
  }

  /** std::string::find: the first place from `at` on. */
  function First(s: string, sought: string, at: nat): (found: Option<nat>)
    ensures found.Some? ==> at <= found.value && Occurs(s, sought, found.value)
    decreases |s| - at
  {
    if at >= |s| then None
    else if Occurs(s, sought, at) then Some(at)
    else First(s, sought, at + 1)
  }

  method FindFrom(s: string, sought: string, start: nat) returns (found: Option<nat>)
    requires start <= |s|
    ensures found == First(s, sought, start)
  {
    for j := start to |s|
      invariant First(s, sought, start) == First(s, sought, j)
    {
      if Occurs(s, sought, j) {
        return Some(j);
      }
    }
    found := None;
  }

  /** The shift of what stands from `at` on. */
  function ShiftedFrom(s: string, at: nat, i: nat, k: nat): string
    decreases |s| - at
  {
    if at >= |s| then ""
    else if Occurs(s, Reference(i), at) then PutMark(k, ShiftedFrom(s, at + |Reference(i)|, i + 1, k + 1))
    else [s[at]] + ShiftedFrom(s, at + 1, i, k)
  }

  function ReplacedFrom(s: string, at: nat, i: nat): nat
    decreases |s| - at
  {
    if at >= |s| then 0
    else if Occurs(s, Reference(i), at) then 1 + ReplacedFrom(s, at + |Reference(i)|, i + 1)
    else ReplacedFrom(s, at + 1, i)
  }

  lemma {:induction false} FromIsSuffix(s: string, at: nat, i: nat, k: nat)
    requires at <= |s|
    ensures ShiftedFrom(s, at, i, k) == Shifted(s[at..], i, k) && ReplacedFrom(s, at, i) == Replaced(s[at..], i)
    decreases |s| - at
  {
    if at < |s| {
      var sought := Reference(i);
      OccursIsPrefix(s, sought, at);
      if Occurs(s, sought, at) {
        FromIsSuffix(s, at + |sought|, i + 1, k + 1);
        assert Shifted(s[at..], i, k) == PutMark(k, Shifted(s[at + |sought|..], i + 1, k + 1));
      } else {
        FromIsSuffix(s, at + 1, i, k);
        assert s[at..][1..] == s[at + 1..];
        assert Shifted(s[at..], i, k) == [s[at]] + Shifted(s[at + 1..], i, k);
      }
    }
  }

  lemma OccursIsPrefix(s: string, sought: string, at: nat)
    requires at <= |s|
    ensures Occurs(s, sought, at) <==> sought <= s[at..]
    ensures Occurs(s, sought, at) ==> s[at..][|sought|..] == s[at + |sought|..]
  {
    if at + |sought| <= |s| {
      assert s[at..][..|sought|] == s[at..at + |sought|];
    }
  }

  /** Over a stretch without $i the text stays. */
  lemma {:induction false} StaysOver(s: string, at: nat, end: nat, i: nat, k: nat)
    requires at <= end <= |s| && First(s, Reference(i), at) == First(s, Reference(i), end)
    requires First(s, Reference(i), end).Some? ==> First(s, Reference(i), end).value == end
    requires First(s, Reference(i), end).None? ==> end == |s|
    ensures ShiftedFrom(s, at, i, k) == s[at..end] + ShiftedFrom(s, end, i, k)
    ensures ReplacedFrom(s, at, i) == ReplacedFrom(s, end, i)
    decreases end - at
  {
    if at == end {
      assert s[at..end] == "";
    } else {
      assert !Occurs(s, Reference(i), at);
      StaysOver(s, at + 1, end, i, k);
      HeadAndRest(s, at, end, ShiftedFrom(s, end, i, k));
    }
  }

  lemma {:induction false} FindsThere(s: string, sought: string, at: nat)
    requires at <= |s|
    ensures var found := First(s, sought, at);
            if found.Some? then First(s, sought, found.value) == found && found.value < |s| else First(s, sought, |s|) == found
    decreases |s| - at
  {
    if at < |s| && !Occurs(s, sought, at) {
      FindsThere(s, sought, at + 1);
    }
  }

  /** Up to the first $i the text stays. */
  lemma StaysUpTo(s: string, at: nat, i: nat, k: nat)
    requires at <= |s|
    ensures var found := First(s, Reference(i), at);
            if found.None? then ShiftedFrom(s, at, i, k) == s[at..] && ReplacedFrom(s, at, i) == 0
            else
              var next := found.value + |Reference(i)|;
              && ShiftedFrom(s, at, i, k) == s[at..found.value] + PutMark(k, ShiftedFrom(s, next, i + 1, k + 1))
              && ReplacedFrom(s, at, i) == 1 + ReplacedFrom(s, next, i + 1)
  {
    hide First, Occurs, Reference, PutMark;
    var found := First(s, Reference(i), at);
    FindsThere(s, Reference(i), at);
    StaysOver(s, at, if found.Some? then found.value else |s|, i, k);
    assert s[at..|s|] == s[at..] && s[at..] + "" == s[at..];
  }

  lemma HeadAndRest(s: string, at: nat, end: nat, rest: string)
    requires at < end <= |s|
    ensures [s[at]] + (s[at + 1..end] + rest) == s[at..end] + rest
  {
    assert s[at..end] == [s[at]] + s[at + 1..end];
    Assoc([s[at]], s[at + 1..end], rest);
  }

  function Glued(results: seq<string>): string {
    if results == [] then "" else results[0] + Glued(results[1..])
  }

  lemma {:induction false} GluedSnoc(results: seq<string>, last: string)
    ensures Glued(results + [last]) == Glued(results) + last
  {
    if results == [] {
      assert [last][1..] == [];
    } else {
      assert (results + [last])[1..] == results[1..] + [last];
      GluedSnoc(results[1..], last);
      Assoc(results[0], Glued(results[1..]), last);
    }
  }

  lemma GluedTwo(results: seq<string>, piece: string, mark: string, others: string)
    ensures Glued(results + [piece] + [mark]) + others == Glued(results) + (piece + (mark + others))
  {
    GluedSnoc(results, piece);
    GluedSnoc(results + [piece], mark);
    Assoc(Glued(results), piece, mark + others);
    Assoc(Glued(results) + piece, mark, others);
  }

  /** Collects the parts between the placeholders found and the new placeholders, then joins them. */
  method RawToString(text: string, placeholders: Placeholders) returns (result: string)
    modifies placeholders
    ensures result == if old(placeholders.count) > 1 then Shifted(text, 1, old(placeholders.count)) else text
    ensures placeholders.count == old(placeholders.count) + if old(placeholders.count) > 1 then Replaced(text, 1) else 0
  {
    if placeholders.count <= 1 {
      return text;
    }
    FromIsSuffix(text, 0, 1, placeholders.count);
    assert text[0..] == text;
    var results := CollectShifted(text, placeholders);
    result := Join(results);
  }

  /** The results so far, with what is still to come, make the whole. */
  ghost predicate Progress(results: seq<string>, rest: string, replaced: nat, k: nat, whole: string, last: nat) {
    Glued(results) + rest == whole && k + replaced == last
  }

  lemma ReplacesOne(results: seq<string>, text: string, prev: nat, i: nat, k: nat, whole: string, last: nat)
    requires prev <= |text| && First(text, Reference(i), prev).Some?
    requires Progress(results, ShiftedFrom(text, prev, i, k), ReplacedFrom(text, prev, i), k, whole, last)
    ensures var at := First(text, Reference(i), prev).value;
            var next := at + |Reference(i)|;
            Progress(results + [text[prev..at]] + [PutMark(k, "")],
                     ShiftedFrom(text, next, i + 1, k + 1), ReplacedFrom(text, next, i + 1), k + 1, whole, last)
  {
    var at := First(text, Reference(i), prev).value;
    var others := ShiftedFrom(text, at + |Reference(i)|, i + 1, k + 1);
    StaysUpTo(text, prev, i, k);
    MarkAppends(k, others);
    GluedTwo(results, text[prev..at], PutMark(k, ""), others);
  }

  /** One placeholder found at `at`: the part before it and its replacement. */
  method ReplaceAt(text: string, prev: nat, at: nat, ghost i: nat, placeholders: Placeholders, results: seq<string>,
                   ghost whole: string, ghost last: nat) returns (more: seq<string>)
    requires prev <= at <= |text| && First(text, Reference(i), prev) == Some(at)
    requires Progress(results, ShiftedFrom(text, prev, i, placeholders.count), ReplacedFrom(text, prev, i),
                      placeholders.count, whole, last)
    modifies placeholders
    ensures Progress(more, ShiftedFrom(text, at + |Reference(i)|, i + 1, placeholders.count),
                     ReplacedFrom(text, at + |Reference(i)|, i + 1), placeholders.count, whole, last)
  {
    ReplacesOne(results, text, prev, i, placeholders.count, whole, last);
    var mark := placeholders.Get();
    more := results + [text[prev..at]] + [mark];
    placeholders.Next();
  }

  method CollectShifted(text: string, placeholders: Placeholders) returns (results: seq<string>)
    modifies placeholders
    ensures Glued(results) == ShiftedFrom(text, 0, 1, old(placeholders.count))
    ensures placeholders.count == old(placeholders.count) + ReplacedFrom(text, 0, 1)
  {
    hide First, ShiftedFrom, ReplacedFrom;
    ghost var whole := ShiftedFrom(text, 0, 1, placeholders.count);
    ghost var last := placeholders.count + ReplacedFrom(text, 0, 1);
    results := [];
    var i: nat := 1;
    var prevIndex := 0;
    var found := FindFrom(text, Reference(i), prevIndex);
    assert "" + whole == whole;
    while found.Some?
      invariant prevIndex <= |text| && found == First(text, Reference(i), prevIndex)
      invariant Progress(results, ShiftedFrom(text, prevIndex, i, placeholders.count), ReplacedFrom(text, prevIndex, i),
                         placeholders.count, whole, last)
      decreases |text| - prevIndex
    {
      results := ReplaceAt(text, prevIndex, found.value, i, placeholders, results, whole, last);
      prevIndex := found.value + |Reference(i)|;
      i := i + 1;
      found := FindFrom(text, Reference(i), prevIndex);
    }
    StaysUpTo(text, prevIndex, i, placeholders.count);
    GluedSnoc(results, text[prevIndex..]);
    results := results + [text[prevIndex..]];
  }

  method Join(results: seq<string>) returns (result: string)
    ensures result == Glued(results)
  {
    result := "";
    for i := 0 to |results|
      invariant result + Glued(results[i..]) == Glued(results)
    {
      assert results[i..][1..] == results[i + 1..];
      Assoc(result, results[i], Glued(results[i + 1..]));
      result := result + results[i];
    }
    assert results[|results|..] == [];
    assert result + "" == result;
  }

  // ---------- When the shift is right ----------

  /** A text with the given placeholders between its pieces. */
  function Woven(pieces: seq<string>, marks: seq<nat>): string
    requires |pieces| == |marks| + 1
    decreases |marks|
  {
    if marks == [] then pieces[0] else pieces[0] + PutMark(marks[0], Woven(pieces[1..], marks[1..]))
  }

  /** The placeholders end where the next pieces begin. A piece is any other text, with literals and what they hold. */
  ghost predicate Pieces(pieces: seq<string>) {
    pieces != [] && forall j | 0 < j < |pieces| :: !StartsDigit(pieces[j])
  }

  /** The text occurs somewhere in the piece. */
  predicate Has(p: string, sought: string) {
    p != "" && (sought <= p || Has(p[1..], sought))
  }

  /** The search for the j-th placeholder finds nothing in the piece before it; what is looked for last is not there. */
  ghost predicate Clear(pieces: seq<string>, i: nat) {
    forall j: nat | j < |pieces| :: !Has(pieces[j], Reference(i + j))
  }

  /** What moving a query's placeholders up by `d` is for: each $i becomes $(i+d). */
  function Moved(marks: seq<nat>, d: nat): seq<nat> {
    seq(|marks|, j requires 0 <= j < |marks| => marks[j] + d)
  }

  lemma {:induction false} SkipsPlain(p: string, y: string, i: nat, k: nat)
    requires '$' !in p
    ensures Shifted(p + y, i, k) == p + Shifted(y, i, k) && Replaced(p + y, i) == Replaced(y, i)
  {
    if p == "" {
      assert p + y == y;
    } else {
      assert (p + y)[1..] == p[1..] + y;
      assert (p + y)[0] == p[0] && Reference(i)[0] == '$' && p[0] in p;
      SkipsPlain(p[1..], y, i, k);
      Assoc([p[0]], p[1..], Shifted(y, i, k));
      assert [p[0]] + p[1..] == p;
    }
  }

  /** A placeholder does not begin in a piece and end behind it. */
  lemma NotAcross(p: string, y: string, i: nat)
    requires p != "" && !(Reference(i) <= p) && !StartsDigit(y)
    ensures !(Reference(i) <= p + y)
  {
    var sought := Reference(i);
    DecimalDigits(i);
    if |sought| <= |p| {
      assert (p + y)[..|sought|] == p[..|sought|];
    } else {
      assert sought[|p|] == Decimal(i)[|p| - 1] && DigitChar(sought[|p|]);
      assert y != "" ==> (p + y)[|p|] == y[0];
    }
  }

  lemma {:induction false} SkipsClear(p: string, y: string, i: nat, k: nat)
    requires !Has(p, Reference(i)) && !StartsDigit(y)
    ensures Shifted(p + y, i, k) == p + Shifted(y, i, k) && Replaced(p + y, i) == Replaced(y, i)
  {
    if p == "" {
      assert p + y == y;
    } else {
      NotAcross(p, y, i);
      assert (p + y)[1..] == p[1..] + y && (p + y)[0] == p[0];
      SkipsClear(p[1..], y, i, k);
      Assoc([p[0]], p[1..], Shifted(y, i, k));
      assert [p[0]] + p[1..] == p;
    }
  }

  lemma {:induction false} SplitDigits(v: string) returns (t: string, w: string)
    ensures v == t + w && (forall c | c in t :: DigitChar(c)) && !StartsDigit(w)
  {
    if StartsDigit(v) {
      t, w := SplitDigits(v[1..]);
      t := [v[0]] + t;
    } else {
      t, w := "", v;
    }
  }

  /** What looks like the placeholder but stands in a piece is moved although it should stay. */
  lemma WrongHere(i: nat, d: nat, v: string, y: string, moved: string)
    requires d > 0 && !StartsDigit(y) && !StartsDigit(moved)
    ensures Shifted(PutMark(i, v + y), i, i + d) != PutMark(i, v + moved)
  {
    var t, w := SplitDigits(v);
    Assoc(t, w, y);
    Assoc(t, w, moved);
    ReplacesOwn(i, i + d, t + (w + y));
    SkipsPlain(t, w + y, i + 1, i + d + 1);
    var rest := Shifted(w + y, i + 1, i + d + 1);
    StaysNoDigit(w + y, i + 1, i + d + 1);
    ReadsLonger(i + d, t + rest);
    ReadsLonger(i, t + (w + moved));
    SameDigits(t, rest, w + moved, i);
    if t != "" {
      DigitsGrow(t, rest, i + d, i);
    } else {
      assert t + rest == rest;
    }
  }

  lemma {:induction false} InsideFirst(p: string, i: nat, d: nat, y: string, moved: string)
    requires Has(p, Reference(i)) && d > 0 && !StartsDigit(y) && !StartsDigit(moved)
    ensures Shifted(p + y, i, i + d) != p + moved
  {
    var sought := Reference(i);
    if sought <= p {
      var v := p[|sought|..];
      assert p == sought + v;
      StartsWithMark(i, v, y);
      StartsWithMark(i, v, moved);
      WrongHere(i, d, v, y, moved);
    } else {
      NotAcross(p, y, i);
      assert (p + y)[1..] == p[1..] + y && (p + y)[0] == p[0];
      InsideFirst(p[1..], i, d, y, moved);
      assert (p + moved)[1..] == p[1..] + moved;
    }
  }

  lemma StartsWithMark(i: nat, v: string, y: string)
    ensures Reference(i) + v + y == PutMark(i, v + y)
  {
    Assoc("$" + Decimal(i), v, y);
    Assoc("$", Decimal(i), v + y);
  }

  lemma ReplacesOwn(i: nat, k: nat, y: string)
    ensures Shifted(PutMark(i, y), i, k) == PutMark(k, Shifted(y, i + 1, k + 1))
    ensures Replaced(PutMark(i, y), i) == 1 + Replaced(y, i + 1)
  {
    Assoc("$", Decimal(i), y);
    assert PutMark(i, y)[|Reference(i)|..] == y;
  }

  lemma LeavesOther(mark: nat, y: string, i: nat, k: nat)
    requires !(Reference(i) <= PutMark(mark, y))
    ensures Shifted(PutMark(mark, y), i, k) == PutMark(mark, Shifted(y, i, k))
  {
    assert PutMark(mark, y)[1..] == Decimal(mark) + y;
    DecimalDigits(mark);
    SkipsPlain(Decimal(mark), y, i, k);
  }

  lemma StaysNoDigit(y: string, i: nat, k: nat)
    requires !StartsDigit(y)
    ensures !StartsDigit(Shifted(y, i, k))
  {}

  lemma WovenTail(pieces: seq<string>, marks: seq<nat>)
    requires Pieces(pieces) && |pieces| == |marks| + 1 && marks != []
    ensures Pieces(pieces[1..]) && !StartsDigit(Woven(pieces[1..], marks[1..]))
  {
    assert pieces[1] == pieces[1..][0];
  }

  lemma {:induction false} DigitsGrow(t: string, y: string, a: nat, b: nat)
    requires t != "" && (forall c | c in t :: DigitChar(c)) && !StartsDigit(y) && a > b
    ensures ReadDigits(t + y, a).0 - ReadDigits(t + y, b).0 >= 10 * (a - b)
    decreases |t|
  {
    assert (t + y)[1..] == t[1..] + y;
    assert (t + y)[0] == t[0] && t[0] in t;
    var c := DigitValue(t[0]);
    if |t| == 1 {
      assert t[1..] + y == y;
    } else {
      DigitsGrow(t[1..], y, 10 * a + c, 10 * b + c);
    }
  }

  /** A $i found inside a longer placeholder takes the digits after it along. */
  lemma FoundInside(i: nat, k: nat, mark: nat, y: string)
    requires mark != i && !StartsDigit(y) && Reference(i) <= PutMark(mark, y)
    ensures |Decimal(i)| < |Decimal(mark)|
    ensures var t := Decimal(mark)[|Decimal(i)|..];
            && t != "" && (forall c | c in t :: DigitChar(c))
            && PutMark(mark, y) == PutMark(i, t + y)
            && Shifted(PutMark(mark, y), i, k) == PutMark(k, t + Shifted(y, i + 1, k + 1))
  {
    PrefixOfDecimal(i, mark, y);
    var t := Decimal(mark)[|Decimal(i)|..];
    DecimalDigits(mark);
    assert forall c | c in t :: c in Decimal(mark);
    assert Decimal(mark) == Decimal(i) + t;
    Assoc(Decimal(i), t, y);
    ReplacesOwn(i, k, t + y);
    SkipsPlain(t, y, i + 1, k + 1);
  }

  /** That makes a wrong number. */
  lemma WrongInside(i: nat, mark: nat, y: string, d: nat, z: string)
    requires d > 0 && mark != i && !StartsDigit(y) && !StartsDigit(z)
    requires Reference(i) <= PutMark(mark, y)
    ensures Shifted(PutMark(mark, y), i, i + d) != PutMark(mark + d, z)
  {
    FoundInside(i, i + d, mark, y);
    StaysNoDigit(y, i + 1, i + d + 1);
    WrongNumber(i, mark, d, Decimal(mark)[|Decimal(i)|..], y, Shifted(y, i + 1, i + d + 1), z);
  }

  lemma WrongNumber(i: nat, mark: nat, d: nat, t: string, y: string, rest: string, z: string)
    requires d > 0 && t != "" && (forall c | c in t :: DigitChar(c))
    requires !StartsDigit(y) && !StartsDigit(rest) && !StartsDigit(z) && PutMark(mark, y) == PutMark(i, t + y)
    ensures PutMark(i + d, t + rest) != PutMark(mark + d, z)
  {
    ReadOwnMark(mark + d, z);
    ReadOwnMark(mark, y);
    ReadsLonger(i + d, t + rest);
    ReadsLonger(i, t + y);
    DigitsGrow(t, rest, i + d, i);
    SameDigits(t, y, rest, i);
  }

  lemma ReadsLonger(k: nat, s: string)
    ensures ReadMark(PutMark(k, s)) == Some(ReadDigits(s, k))
  {
    DecimalDigits(k);
    ReadThrough(k, s);
    assert PutMark(k, s)[1..] == Decimal(k) + s;
  }

  lemma {:induction false} SameDigits(t: string, x: string, y: string, v: nat)
    requires (forall c | c in t :: DigitChar(c)) && !StartsDigit(x) && !StartsDigit(y)
    ensures ReadDigits(t + x, v).0 == ReadDigits(t + y, v).0
    decreases |t|
  {
    if t == "" {
      assert t + x == x && t + y == y;
    } else {
      assert (t + x)[1..] == t[1..] + x && (t + y)[1..] == t[1..] + y;
      assert t[0] in t;
      SameDigits(t[1..], x, y, 10 * v + DigitValue(t[0]));
    }
  }

  lemma DecimalTells(a: nat, b: nat)
    requires Decimal(a) == Decimal(b)
    ensures a == b
  {
    ReadOwnDigits(a, "");
    ReadOwnDigits(b, "");
  }

  lemma PrefixOfDecimal(i: nat, mark: nat, y: string)
    requires mark != i && !StartsDigit(y) && Reference(i) <= PutMark(mark, y)
    ensures |Decimal(i)| < |Decimal(mark)| && Decimal(i) == Decimal(mark)[..|Decimal(i)|]
  {
    var digits, own, all := Decimal(i), Decimal(mark), Decimal(mark) + y;
    assert PutMark(mark, y)[1..] == all && Reference(i)[1..] == digits;
    assert digits == all[..|digits|];
    DecimalDigits(i);
    assert y != "" ==> all[|own|] == y[0];
    assert forall j | 0 <= j < |digits| :: DigitChar(all[j]) by {
      forall j | 0 <= j < |digits| ensures DigitChar(all[j]) {
        assert all[j] == digits[j] && digits[j] in digits;
      }
    }
    assert |digits| <= |own|;
    assert digits == own[..|digits|];
    if digits == own {
      DecimalTells(i, mark);
    }
  }

  /** The first placeholder has the number looked for. */
  lemma OwnFirst(p: string, i: nat, d: nat, tail: string, moved: string)
    requires !Has(p, Reference(i))
    ensures Shifted(p + PutMark(i, tail), i, i + d) == p + PutMark(i + d, moved) <==> Shifted(tail, i + 1, i + 1 + d) == moved
  {
    var shifted := Shifted(tail, i + 1, i + 1 + d);
    SkipsClear(p, PutMark(i, tail), i, i + d);
    ReplacesOwn(i, i + d, tail);
    SamePrefix(p, PutMark(i + d, shifted), PutMark(i + d, moved));
    MarkAppends(i + d, shifted);
    MarkAppends(i + d, moved);
    SamePrefix(PutMark(i + d, ""), shifted, moved);
  }

  /** The first placeholder has another number: the shift goes wrong. */
  lemma OtherFirst(p: string, mark: nat, i: nat, d: nat, tail: string, moved: string)
    requires !Has(p, Reference(i)) && mark != i && d > 0 && !StartsDigit(tail) && !StartsDigit(moved)
    ensures Shifted(p + PutMark(mark, tail), i, i + d) != p + PutMark(mark + d, moved)
  {
    SkipsClear(p, PutMark(mark, tail), i, i + d);
    SamePrefix(p, Shifted(PutMark(mark, tail), i, i + d), PutMark(mark + d, moved));
    if Reference(i) <= PutMark(mark, tail) {
      WrongInside(i, mark, tail, d, moved);
    } else {
      LeavesOther(mark, tail, i, i + d);
      StaysNoDigit(tail, i, i + d);
      ReadOwnMark(mark, Shifted(tail, i, i + d));
      ReadOwnMark(mark + d, moved);
    }
  }

  lemma MovedSplits(pieces: seq<string>, marks: seq<nat>, d: nat)
    requires |pieces| == |marks| + 1 && marks != []
    ensures Woven(pieces, Moved(marks, d)) == pieces[0] + PutMark(marks[0] + d, Woven(pieces[1..], Moved(marks[1..], d)))
  {
    assert Moved(marks, d)[1..] == Moved(marks[1..], d);
  }

  lemma OwnStep(pieces: seq<string>, marks: seq<nat>, i: nat, d: nat)
    requires Pieces(pieces) && |pieces| == |marks| + 1 && marks != [] && marks[0] == i && !Has(pieces[0], Reference(i))
    ensures Shifted(Woven(pieces, marks), i, i + d) == Woven(pieces, Moved(marks, d))
            <==> Shifted(Woven(pieces[1..], marks[1..]), i + 1, i + 1 + d) == Woven(pieces[1..], Moved(marks[1..], d))
  {
    MovedSplits(pieces, marks, d);
    OwnFirst(pieces[0], i, d, Woven(pieces[1..], marks[1..]), Woven(pieces[1..], Moved(marks[1..], d)));
  }

  lemma OtherStep(pieces: seq<string>, marks: seq<nat>, i: nat, d: nat)
    requires Pieces(pieces) && |pieces| == |marks| + 1 && marks != [] && d > 0
    requires marks[0] != i || Has(pieces[0], Reference(i))
    ensures Shifted(Woven(pieces, marks), i, i + d) != Woven(pieces, Moved(marks, d))
  {
    MovedSplits(pieces, marks, d);
    WovenTail(pieces, marks);
    WovenTail(pieces, Moved(marks, d));
    assert Moved(marks, d)[1..] == Moved(marks[1..], d);
    var tail, moved := Woven(pieces[1..], marks[1..]), Woven(pieces[1..], Moved(marks[1..], d));
    if Has(pieces[0], Reference(i)) {
      InsideFirst(pieces[0], i, d, PutMark(marks[0], tail), PutMark(marks[0] + d, moved));
    } else {
      OtherFirst(pieces[0], marks[0], i, d, tail, moved);
    }
  }

  lemma ClearSplits(pieces: seq<string>, i: nat)
    requires pieces != []
    ensures Clear(pieces, i) <==> !Has(pieces[0], Reference(i)) && Clear(pieces[1..], i + 1)
  {
    if !Has(pieces[0], Reference(i + 0)) && Clear(pieces[1..], i + 1) {
      forall j: nat | j < |pieces| ensures !Has(pieces[j], Reference(i + j)) {
        if j > 0 {
          assert !Has(pieces[1..][j - 1], Reference(i + 1 + (j - 1)));
        }
      }
    }
    if Clear(pieces, i) {
      assert !Has(pieces[0], Reference(i + 0));
      forall j: nat | j < |pieces[1..]| ensures !Has(pieces[1..][j], Reference(i + 1 + j)) {
        assert !Has(pieces[j + 1], Reference(i + (j + 1)));
      }
    }
  }

  /** The shift moves every placeholder up and nothing else exactly when they are numbered i, i+1, ... in the order of
      the text, and no piece holds what is looked for there. */
  lemma {:induction false} ShiftsIffInOrder(pieces: seq<string>, marks: seq<nat>, i: nat, d: nat)
    requires Pieces(pieces) && |pieces| == |marks| + 1 && d > 0
    ensures Shifted(Woven(pieces, marks), i, i + d) == Woven(pieces, Moved(marks, d))
            <==> marks == From(i, |marks|) && Clear(pieces, i)
    decreases |marks|
  {
    hide Shifted, Has, Reference, StartsDigit;
    ClearSplits(pieces, i);
    if marks == [] {
      NothingToShift(pieces[0], i, d);
    } else if marks[0] == i && !Has(pieces[0], Reference(i)) {
      OwnStep(pieces, marks, i, d);
      WovenTail(pieces, marks);
      ShiftsIffInOrder(pieces[1..], marks[1..], i + 1, d);
      OneMarkMore(marks, i);
    } else {
      OtherStep(pieces, marks, i, d);
      assert From(i, |marks|)[0] == i;
    }
  }

  lemma NothingToShift(p: string, i: nat, d: nat)
    requires d > 0
    ensures Shifted(p, i, i + d) == Woven([p], Moved([], d)) <==> !Has(p, Reference(i))
    ensures From(i, 0) == []
  {
    assert p + "" == p;
    if Has(p, Reference(i)) {
      InsideFirst(p, i, d, "", "");
    } else {
      SkipsClear(p, "", i, i + d);
    }
  }

  lemma {:induction false} NothingHidden(p: string, sought: string)
    requires '$' !in p && '$' in sought
    ensures !Has(p, sought)
  {
    if p != "" {
      NothingHidden(p[1..], sought);
    }
  }

  /** Where only the placeholders have a dollar, their order decides. */
  lemma PlainIsClear(pieces: seq<string>, i: nat)
    requires forall piece | piece in pieces :: '$' !in piece
    ensures Clear(pieces, i)
  {
    forall j: nat | j < |pieces| ensures !Has(pieces[j], Reference(i + j)) {
      assert Reference(i + j)[0] == '$';
      NothingHidden(pieces[j], Reference(i + j));
    }
  }

  lemma SamePrefix(p: string, x: string, y: string)
    ensures p + x == p + y <==> x == y
  {
    assert (p + x)[|p|..] == x && (p + y)[|p|..] == y;
  }

  lemma OneMarkMore(marks: seq<nat>, i: nat)
    requires marks != [] && marks[0] == i
    ensures marks == From(i, |marks|) <==> marks[1..] == From(i + 1, |marks| - 1)
  {
    assert From(i, |marks|) == [i] + From(i + 1, |marks| - 1);
    assert marks == [i] + marks[1..];
  }

  /** On such a text the counter advances by the number of placeholders. */
  lemma {:induction false} ReplacesAll(pieces: seq<string>, n: nat, i: nat)
    requires Pieces(pieces) && |pieces| == n + 1 && Clear(pieces, i)
    ensures Replaced(Woven(pieces, From(i, n)), i) == n
    decreases n
  {
    ClearSplits(pieces, i);
    if n == 0 {
      SkipsClear(pieces[0], "", i, i);
      assert pieces[0] + "" == pieces[0];
    } else {
      var tail := Woven(pieces[1..], From(i + 1, n - 1));
      assert From(i, n)[1..] == From(i + 1, n - 1);
      SkipsClear(pieces[0], PutMark(i, tail), i, i);
      ReplacesOwn(i, i, tail);
      ReplacesAll(pieces[1..], n - 1, i + 1);
    }
  }
}
