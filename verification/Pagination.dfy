/** Paging of lists (src/shared/PaginationBar.tsx, src/shared/useGridPageSize.ts and the lists of
    src/mobile/MobileApp.tsx). */
module Pagination {
  import opened Sequences
  import opened Text

  function Min(a: int, b: int): int { if a <= b then a else b }

  function Max(a: int, b: int): int { if a >= b then a else b }

  /** The quotient rounded up, for a positive b. */
  function CeilDiv(a: int, b: int): (q: int)
    requires b > 0
    ensures (q - 1) * b < a <= q * b
  {
    (a + b - 1) / b
  }

  // ---------- Whole rows ----------

  function Columns(columns: real): nat { Max(1, columns.Floor) }

  function AlignPageSizeToGrid(pageSize: nat, columns: real, leadingItems: nat): int {
    CeilDiv(pageSize + leadingItems, Columns(columns)) * Columns(columns) - leadingItems
  }

  lemma {:induction false} MultiplesUpTo(a: int, b: int, step: nat)
    requires a <= b
    ensures a * step <= b * step
  {
    if step > 0 {
      MultiplesUpTo(a, b, step - 1);
      assert a * step == a * (step - 1) + a && b * step == b * (step - 1) + b;
    }
  }

  lemma MultiplesApart(a: int, b: int, step: nat)
    requires a * step < b * step
    ensures a < b
  {
    if a >= b {
      MultiplesUpTo(b, a, step);
    }
  }

  /** The least size from the requested one on that fills whole rows, less than a row above it. */
  lemma AlignedIsLeast(pageSize: nat, columns: real, leadingItems: nat, other: int)
    ensures var aligned, row := AlignPageSizeToGrid(pageSize, columns, leadingItems), Columns(columns);
      && row >= 1 && (if columns >= 1.0 then row as real <= columns < row as real + 1.0 else row == 1)
      && pageSize <= aligned < pageSize + row
      && (aligned + leadingItems) % row == 0
      && (pageSize <= other && (other + leadingItems) % row == 0 ==> aligned <= other)
  {
    var aligned, row := AlignPageSizeToGrid(pageSize, columns, leadingItems), Columns(columns);
    var rows := CeilDiv(pageSize + leadingItems, row);
    assert (rows - 1) * row == rows * row - row;
    MultipleLeavesNothing(rows, row);
    if pageSize <= other && (other + leadingItems) % row == 0 && other < aligned {
      var k := (other + leadingItems) / row;
      assert other + leadingItems == k * row;
      MultiplesApart(k, rows, row);
      MultiplesUpTo(k, rows - 1, row);
    }
  }

  lemma MultipleLeavesNothing(k: int, m: nat)
    requires m > 0
    ensures (k * m) % m == 0
  {
    var q, r := (k * m) / m, (k * m) % m;
    assert k * m == q * m + r;
    assert (q + 1) * m == q * m + m;
    if q < k {
      MultiplesUpTo(q + 1, k, m);
    } else {
      MultiplesUpTo(k, q, m);
    }
  }

  // ---------- Pages of a list ----------

  function PageCount(total: nat, size: nat): (count: nat)
    requires size > 0
    ensures count >= 1
  {
    Max(1, CeilDiv(total, size))
  }

  /** JavaScript's `slice` for bounds that are not negative. */
  function Slice<T>(list: seq<T>, from: nat, to: nat): seq<T> {
    if from >= |list| || to <= from then [] else list[from..Min(to, |list|)]
  }

  function Page<T>(list: seq<T>, size: nat, page: nat): seq<T>
    requires page >= 1
  {
    Slice(list, (page - 1) * size, page * size)
  }

  function SafePage(page: nat, total: nat, size: nat): nat
    requires size > 0
  {
    Min(page, PageCount(total, size))
  }

  function FirstPages<T>(list: seq<T>, size: nat, pages: nat): seq<T> {
    if pages == 0 then [] else FirstPages(list, size, pages - 1) + Page(list, size, pages)
  }

  lemma {:induction false} FirstPagesAre<T>(list: seq<T>, size: nat, pages: nat)
    ensures FirstPages(list, size, pages) == list[..Min(pages * size, |list|)]
  {
    if pages > 0 {
      FirstPagesAre(list, size, pages - 1);
      assert pages * size == (pages - 1) * size + size;
    }
  }

  lemma CountCovers(total: nat, size: nat)
    requires size > 0
    ensures total <= PageCount(total, size) * size
  {
    var q := CeilDiv(total, size);
    if q < 1 {
      MultiplesUpTo(q, 0, size);
    }
  }

  /** The pages one after another are the list: nothing is lost and nothing comes twice. */
  lemma PagesMakeList<T>(list: seq<T>, size: nat)
    requires size > 0
    ensures FirstPages(list, size, PageCount(|list|, size)) == list
  {
    FirstPagesAre(list, size, PageCount(|list|, size));
    CountCovers(|list|, size);
  }

  /** Only the last page may be short, and the page shown is empty only when the list is. */
  lemma SafePageShows<T>(list: seq<T>, size: nat, page: nat)
    requires size > 0 && page >= 1
    ensures var count, safe := PageCount(|list|, size), SafePage(page, |list|, size);
      && 1 <= safe <= count && safe == (if page <= count then page else count)
      && (safe < count ==> |Page(list, size, safe)| == size)
      && |Page(list, size, safe)| <= size
      && (Page(list, size, safe) == [] <==> list == [])
  {
    var count, safe := PageCount(|list|, size), SafePage(page, |list|, size);
    PageLength(list, size, safe);
    if safe < count {
      PageBeforeLast(|list|, size, safe);
    } else {
      LastPage(|list|, size);
    }
  }

  lemma PageLength<T>(list: seq<T>, size: nat, page: nat)
    requires page >= 1
    ensures var from := (page - 1) * size;
      |Page(list, size, page)| == Max(0, Min(from + size, |list|) - from)
  {
    assert page * size == (page - 1) * size + size;
  }

  lemma PageBeforeLast(total: nat, size: nat, page: nat)
    requires size > 0 && 1 <= page < PageCount(total, size)
    ensures (page - 1) * size + size < total
  {
    MultiplesUpTo(page, PageCount(total, size) - 1, size);
    assert page * size == (page - 1) * size + size;
  }

  lemma LastPage(total: nat, size: nat)
    requires size > 0
    ensures total > 0 ==> (PageCount(total, size) - 1) * size < total
  {
  }

  // ---------- The page numbers of the bar ----------

  datatype Item = Number(page: int) | EllipsisStart | EllipsisEnd

  /** How many page numbers are shown without leaving any out. */
  const WHOLE: nat := 5

  function NumbersTo(count: nat): (items: seq<Item>)
    ensures |items| == count && forall k | 0 <= k < count :: items[k] == Number(k + 1)
  {
    seq(count, k => Number(k + 1))
  }

  function PageNumbers(page: int, count: nat): seq<Item> {
    if count <= WHOLE then NumbersTo(count)
    else if page <= 2 then [Number(1), Number(2), Number(3), EllipsisEnd, Number(count)]
    else if page >= count - 1 then
      [Number(1), EllipsisStart, Number(count - 2), Number(count - 1), Number(count)]
    else
      [Number(1), EllipsisStart, Number(page - 1), Number(page), Number(page + 1), EllipsisEnd, Number(count)]
  }

  /** Neighbouring items: two numbers follow on directly, an ellipsis stands between two numbers. */
  predicate Orderly(items: seq<Item>, k: nat)
    requires k + 1 < |items|
  {
    match (items[k], items[k + 1])
    case (Number(a), Number(b)) => b == a + 1
    case (Number(a), _) => k + 2 < |items| && items[k + 2].Number? && a < items[k + 2].page
    case (_, next) => k > 0 && next.Number?
  }

  /** Pages from 1 to the last one, in order, with an ellipsis wherever pages are left out. */
  lemma NumbersInOrder(page: int, count: nat)
    requires count >= 1
    ensures var items := PageNumbers(page, count);
      && |items| > 0 && items[0] == Number(1) && items[|items| - 1] == Number(count)
      && (forall k | 0 <= k < |items| - 1 :: Orderly(items, k))
      && NoDup(items)
  {
  }

  /** The current page and the pages next to it are always offered. */
  lemma NeighboursShown(page: int, count: nat, near: int)
    requires 1 <= page <= count && page - 1 <= near <= page + 1 && 1 <= near <= count
    ensures Number(near) in PageNumbers(page, count)
  {
    if count <= WHOLE {
      assert NumbersTo(count)[near - 1] == Number(near);
    }
  }

  /** An ellipsis at `k` hides at least one page. */
  predicate HidesPages(items: seq<Item>, k: nat)
    requires k < |items|
  {
    && 0 < k < |items| - 1 && items[k - 1].Number? && items[k + 1].Number?
    && items[k - 1].page + 1 < items[k + 1].page
  }

  /** Every ellipsis hides pages except next to the third page from either end. */
  lemma EllipsesHideIff(page: int, count: nat)
    requires 1 <= page <= count
    ensures var items := PageNumbers(page, count);
      (forall k | 0 <= k < |items| && !items[k].Number? :: HidesPages(items, k))
      <==> count <= 5 || (page != 3 && page != count - 2)
  {
    var items := PageNumbers(page, count);
    if count > WHOLE && page == 3 {
      assert !items[1].Number? && !HidesPages(items, 1);
    } else if count > WHOLE && page == count - 2 {
      assert !items[5].Number? && !HidesPages(items, 5);
    }
  }

  // ---------- Numbers as text ----------

  predicate Digit(c: char) { '0' <= c <= '9' }

  function DigitOf(d: nat): (c: char)
    requires d < 10
    ensures Digit(c) && DigitValue(c) == d
  {
    '0' + d as char
  }

  function DigitValue(c: char): nat
    requires Digit(c)
  {
    (c - '0') as nat
  }

  function ToText(n: nat): (s: string)
    ensures s != ""
  {
    (if n < 10 then "" else ToText(n / 10)) + [DigitOf(n % 10)]
  }

  function Value(digits: string): nat
    requires forall c | c in digits :: Digit(c)
  {
    if digits == "" then 0
    else
      assert Digit(digits[|digits| - 1]);
      Value(digits[..|digits| - 1]) * 10 + DigitValue(digits[|digits| - 1])
  }

  function DigitPrefix(s: string): (n: nat)
    ensures n <= |s| && forall c | c in s[..n] :: Digit(c)
    ensures n < |s| ==> !Digit(s[n])
  {
    if s == "" || !Digit(s[0]) then 0
    else
      var n := 1 + DigitPrefix(s[1..]);
      assert s[..n] == [s[0]] + s[1..][..n - 1];
      n
  }

  /** `Number.parseInt` in base ten on text without sign or leading space. */
  function ParseInt(s: string): Option<nat> {
    var n := DigitPrefix(s);
    if n == 0 then None else Some(Value(s[..n]))
  }

  lemma ValueOfLonger(digits: string, last: char)
    requires (forall c | c in digits :: Digit(c)) && Digit(last)
    ensures forall c | c in digits + [last] :: Digit(c)
    ensures Value(digits + [last]) == Value(digits) * 10 + DigitValue(last)
  {
    assert (digits + [last])[..|digits|] == digits;
  }

  lemma {:induction false} TextIsDigits(n: nat)
    ensures forall c | c in ToText(n) :: Digit(c)
    ensures Value(ToText(n)) == n
  {
    if n >= 10 { TextIsDigits(n / 10); }
    ValueOfLonger(if n < 10 then "" else ToText(n / 10), DigitOf(n % 10));
  }

  lemma ParseDigits(s: string)
    requires s != "" && forall c | c in s :: Digit(c)
    ensures ParseInt(s) == Some(Value(s))
  {
    assert forall k | 0 <= k < |s| :: s[k] in s && Digit(s[k]);
    assert DigitPrefix(s) == |s|;
    assert s[..|s|] == s;
  }

  lemma ParseText(n: nat)
    ensures ParseInt(ToText(n)) == Some(n)
  {
    TextIsDigits(n);
    ParseDigits(ToText(n));
  }

  // ---------- Jumping to a page ----------

  const DRAFT_LENGTH: nat := 4

  function Typed(text: string): string {
    var digits := Filter(text, Digit);
    digits[..Min(DRAFT_LENGTH, |digits|)]
  }

  /** The page a jump leads to from `page`. */
  function Jump(draft: string, page: nat, count: nat): nat {
    var target := ParseInt(draft);
    if target.None? then page else Min(Max(target.value, 1), count)
  }

  function Distance(a: int, b: int): nat { if a <= b then b - a else a - b }

  /** A jump leads to the page nearest to the number asked for. */
  lemma JumpIsNearest(draft: string, page: nat, count: nat, other: nat)
    requires 1 <= other <= count && ParseInt(draft).Some?
    ensures 1 <= Jump(draft, page, count) <= count
    ensures var target := ParseInt(draft).value;
      Distance(Jump(draft, page, count), target) <= Distance(other, target)
  {
  }

  /** A draft without a number leads nowhere else. */
  lemma NoNumberStays(draft: string, page: nat, count: nat)
    requires draft == "" || !Digit(draft[0])
    ensures Jump(draft, page, count) == page
  {
  }

  /** The untouched draft is the page's own number, so jumping with it stays on a page in range. */
  lemma UntouchedJumpStays(page: nat, count: nat)
    requires count >= 1
    ensures Jump(ToText(page), page, count) == page <==> 1 <= page <= count
  {
    ParseText(page);
  }

  lemma {:induction false} ValueBound(digits: string)
    requires |digits| <= 4 && forall c | c in digits :: Digit(c)
    ensures Value(digits) < if |digits| == 0 then 1 else if |digits| == 1 then 10
                            else if |digits| == 2 then 100 else if |digits| == 3 then 1000 else 10000
  {
    if digits != "" {
      assert digits[|digits| - 1] in digits;
      ValueBound(digits[..|digits| - 1]);
    }
  }

  lemma {:induction false} TextLength(n: nat)
    requires n < 10000
    ensures |ToText(n)| <= if n < 10 then 1 else if n < 100 then 2 else if n < 1000 then 3 else 4
  {
    if n >= 10 {
      TextLength(n / 10);
    }
  }

  lemma TypedIsDigits(text: string)
    ensures |Typed(text)| <= DRAFT_LENGTH && forall c | c in Typed(text) :: Digit(c)
  {
    FilterMembers(text, Digit);
  }

  /** Typing keeps the first four digits, in their order, and nothing else. */
  lemma TypedIsFirstFour(text: string)
    ensures var digits := Filter(text, Digit);
      Typed(text) <= digits && (|digits| <= 4 ==> Typed(text) == digits) && (|digits| > 4 ==> |Typed(text)| == 4)
  {
  }

  lemma TypedIsSmall(text: string)
    ensures ParseInt(Typed(text)).Some? ==> ParseInt(Typed(text)).value < 10000
  {
    TypedIsDigits(text);
    ValueBound(Typed(text));
    if Typed(text) != "" {
      ParseDigits(Typed(text));
    }
  }

  lemma TypedNumber(wanted: nat)
    requires wanted < 10000
    ensures ParseInt(Typed(ToText(wanted))) == Some(wanted)
  {
    var text := ToText(wanted);
    TextIsDigits(wanted);
    TextLength(wanted);
    FilterAll(text, Digit);
    assert Typed(text) == text;
    ParseText(wanted);
  }

  /** Four digits are kept, so exactly the pages up to 9999 can be reached by typing. */
  lemma JumpReachesIff(page: nat, count: nat, wanted: nat)
    requires 1 <= wanted <= count && wanted != page
    ensures (exists text :: Jump(Typed(text), page, count) == wanted) <==> wanted < 10000
  {
    if text :| Jump(Typed(text), page, count) == wanted {
      TypedIsSmall(text);
    }
    if wanted < 10000 {
      TypedNumber(wanted);
      assert Jump(Typed(ToText(wanted)), page, count) == wanted;
    }
  }

  /** The bar with its draft; the parent takes over the page and the draft follows it. */
  class Bar {
    var page: nat
    var count: Option<nat>
    var jumpDraft: string

    ghost predicate Valid()
      reads this
    {
      count.Some? ==> count.value >= 1
    }

    constructor (page: nat, count: Option<nat>)
      requires count.Some? ==> count.value >= 1
      ensures Valid() && this.page == page && this.count == count && jumpDraft == ToText(page)
    {
      this.page, this.count, jumpDraft := page, count, ToText(page);
    }

    method Type(text: string)
      requires Valid()
      modifies this`jumpDraft
      ensures jumpDraft == Typed(text)
    {
      var digits := Filter(text, Digit);
      jumpDraft := if |digits| > DRAFT_LENGTH then digits[..DRAFT_LENGTH] else digits;
    }

    method ApplyJump()
      requires Valid()
      modifies this`page, this`jumpDraft
      ensures Valid()
      ensures count.None? ==> page == old(page) && jumpDraft == old(jumpDraft)
      ensures count.Some? ==> page == Jump(old(jumpDraft), old(page), count.value) && jumpDraft == ToText(page)
    {
      if count.None? { return; }
      var target := ParseInt(jumpDraft);
      if target.None? { jumpDraft := ToText(page); return; }
      var clamped := Min(Max(target.value, 1), count.value);
      if clamped == page {
        jumpDraft := ToText(page);
      } else {
        ChangePage(clamped);
      }
    }

    /** What the parent does with a page change. */
    method ChangePage(target: nat)
      modifies this`page, this`jumpDraft
      ensures page == target && jumpDraft == ToText(target)
    {
      page, jumpDraft := target, ToText(target);
    }
  }
}
