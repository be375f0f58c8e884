/** The pagination bar under the home page's movie grid
    (src/pages/HomePage.jsx): a Prev button, page 1, a leading ellipsis, a
    sliding window of up to four interior page numbers, a trailing ellipsis,
    the last page, and a Next button.

    The calculation takes any integers, as the component does; the properties
    are proved for the range the component keeps `page` in,
    `1 <= page <= totalPages`. */
module HomePagination {
  import opened Text

  function Max(a: int, b: int): int {
    if a < b then b else a
  }

  function Min(a: int, b: int): int {
    if a < b then a else b
  }

  /** The consecutive integers `lo, lo + 1, ..., hi`; empty when `hi < lo`. */
  function Range(lo: int, hi: int): (r: seq<int>)
    ensures |r| == if hi < lo then 0 else hi - lo + 1
    ensures forall k :: 0 <= k < |r| ==> r[k] == lo + k
    decreases hi - lo
  {
    if hi < lo then [] else [lo] + Range(lo + 1, hi)
  }

  // ---------------------------------------------------------------------------
  // The sliding window
  // ---------------------------------------------------------------------------

  /** `end`: at most three past `max(2, page)` and at most `totalPages - 1`. */
  function WindowEnd(page: int, totalPages: int): int {
    Min(Max(2, page) + 3, totalPages - 1)
  }

  /** `start`: `max(2, page)`, pulled back towards 2 when the window would be
      narrower than four. */
  function WindowStart(page: int, totalPages: int): int {
    var start := Max(2, page);
    var end := WindowEnd(page, totalPages);
    if end - start < 3 then Max(2, end - 3) else start
  }

  function Window(page: int, totalPages: int): seq<int> {
    Range(WindowStart(page, totalPages), WindowEnd(page, totalPages))
  }

  /** The window holds `min(4, totalPages - 2)` consecutive interior pages
      (none when there are at most two pages), and it holds the current page
      whenever that page is interior. */
  lemma WindowFacts(page: int, totalPages: int)
    requires 1 <= page <= totalPages
    ensures |Window(page, totalPages)| == Max(0, Min(4, totalPages - 2))
    ensures forall k :: 0 <= k < |Window(page, totalPages)| ==> 2 <= Window(page, totalPages)[k] <= totalPages - 1
    ensures forall k :: 0 < k < |Window(page, totalPages)| ==> Window(page, totalPages)[k] == Window(page, totalPages)[k - 1] + 1
    ensures 2 <= page <= totalPages - 1 ==> WindowStart(page, totalPages) <= page <= WindowEnd(page, totalPages)
    ensures totalPages >= 3 ==> 2 <= WindowStart(page, totalPages) <= WindowEnd(page, totalPages) == Window(page, totalPages)[|Window(page, totalPages)| - 1]
    ensures totalPages <= 2 ==> Window(page, totalPages) == []
  {
  }

  /** The immediately-invoked function that builds the window: `start` and
      `end` reassigned, then a loop pushing `start..end` into `nums`. */
  method WindowNumbers(page: int, totalPages: int) returns (nums: seq<int>)
    ensures nums == Window(page, totalPages)
    ensures 1 <= page <= totalPages ==>
      |nums| == Max(0, Min(4, totalPages - 2))
      && (forall k :: 0 <= k < |nums| ==> 2 <= nums[k] <= totalPages - 1)
      && (forall k :: 0 < k < |nums| ==> nums[k] == nums[k - 1] + 1)
  {
    var start := Max(2, page);
    var end := Min(start + 3, totalPages - 1);
    if end - start < 3 {
      start := Max(2, end - 3);
    }
    nums := [];
    var i := start;
    while i <= end
      invariant start <= i <= Max(start, end + 1)
      invariant |nums| == i - start
      invariant forall k :: 0 <= k < |nums| ==> nums[k] == start + k
    {
      nums := nums + [i];
      i := i + 1;
    }
    assert start == WindowStart(page, totalPages) && end == WindowEnd(page, totalPages);
    RangeBuilt(nums, start, end);
    if 1 <= page <= totalPages {
      WindowFacts(page, totalPages);
    }
  }

  /** A sequence of `start, start + 1, ...` of the right length is `Range`. */
  lemma RangeBuilt(nums: seq<int>, lo: int, hi: int)
    requires |nums| == Max(0, hi - lo + 1)
    requires forall k :: 0 <= k < |nums| ==> nums[k] == lo + k
    ensures nums == Range(lo, hi)
  {
  }

  // ---------------------------------------------------------------------------
  // The bar
  // ---------------------------------------------------------------------------

  /** A rendered page button (with its highlight) or an ellipsis `...`. */
  datatype Item = PageButton(n: int, current: bool) | Ellipsis

  /** Prev or Next: the page its click sets and whether it is disabled. */
  datatype Nav = Nav(target: int, disabled: bool)

  datatype Bar = Bar(prev: Nav, items: seq<Item>, next: Nav)

  /** One button per number, highlighted when it is the current page. */
  function PageButtons(nums: seq<int>, page: int): seq<Item>
    decreases |nums|
  {
    if nums == [] then [] else [PageButton(nums[0], nums[0] == page)] + PageButtons(nums[1..], page)
  }

  /** Page 1, an optional ellipsis, the numbers `w`, an optional ellipsis,
      and the last page when there is more than one. */
  function Assemble(page: int, totalPages: int, w: seq<int>, leading: bool, trailing: bool): seq<Item> {
    [PageButton(1, page == 1)]
    + (if leading then [Ellipsis] else [])
    + PageButtons(w, page)
    + (if trailing then [Ellipsis] else [])
    + (if totalPages > 1 then [PageButton(totalPages, page == totalPages)] else [])
  }

  /** The buttons between Prev and Next, around the window. */
  function Layout(page: int, totalPages: int, leading: bool, trailing: bool): seq<Item> {
    Assemble(page, totalPages, Window(page, totalPages), leading, trailing)
  }

  function PrevButton(page: int): Nav {
    Nav(Max(page - 1, 1), page == 1)
  }

  function NextButton(page: int, totalPages: int): Nav {
    Nav(Min(page + 1, totalPages), page == totalPages)
  }

  /** The bar as the component renders it. */
  function PaginationBar(page: int, totalPages: int): Bar {
    Bar(PrevButton(page),
        Layout(page, totalPages, page > 4, page < totalPages - 3 && totalPages > 5),
        NextButton(page, totalPages))
  }

  /** The page numbers on the buttons, left to right. */
  function Numbers(items: seq<Item>): seq<int>
    decreases |items|
  {
    if items == [] then []
    else (if items[0].PageButton? then [items[0].n] else []) + Numbers(items[1..])
  }

  /** The page numbers on the highlighted buttons. */
  function Highlighted(items: seq<Item>): seq<int>
    decreases |items|
  {
    if items == [] then []
    else (if items[0].PageButton? && items[0].current then [items[0].n] else []) + Highlighted(items[1..])
  }

  predicate StrictlyIncreasing(xs: seq<int>) {
    forall i, j :: 0 <= i < j < |xs| ==> xs[i] < xs[j]
  }

  /** Both readings work element by element, so they distribute over `+`. */
  lemma NumbersAppend(a: seq<Item>, b: seq<Item>)
    ensures Numbers(a + b) == Numbers(a) + Numbers(b)
    ensures Highlighted(a + b) == Highlighted(a) + Highlighted(b)
  {
    NumbersOnlyAppend(a, b);
    HighlightedAppend(a, b);
  }

  lemma {:induction false} NumbersOnlyAppend(a: seq<Item>, b: seq<Item>)
    ensures Numbers(a + b) == Numbers(a) + Numbers(b)
    decreases |a|
  {
    if a == [] {
      assert a + b == b;
    } else {
      var c := a + b;
      assert c[0] == a[0] && c[1..] == a[1..] + b;
      NumbersOnlyAppend(a[1..], b);
    }
  }

  lemma {:induction false} HighlightedAppend(a: seq<Item>, b: seq<Item>)
    ensures Highlighted(a + b) == Highlighted(a) + Highlighted(b)
    decreases |a|
  {
    if a == [] {
      assert a + b == b;
    } else {
      var c := a + b;
      assert c[0] == a[0] && c[1..] == a[1..] + b;
      HighlightedAppend(a[1..], b);
    }
  }

  lemma {:induction false} PageButtonsNumbers(lo: int, hi: int, page: int)
    ensures Numbers(PageButtons(Range(lo, hi), page)) == Range(lo, hi)
    ensures Highlighted(PageButtons(Range(lo, hi), page)) == if lo <= page <= hi then [page] else []
    decreases hi - lo
  {
    if lo <= hi {
      assert Range(lo, hi)[1..] == Range(lo + 1, hi);
      PageButtonsNumbers(lo + 1, hi, page);
    }
  }

  lemma PieceNumbers(x: Item)
    ensures Numbers([x]) == (if x.PageButton? then [x.n] else [])
    ensures Highlighted([x]) == (if x.PageButton? && x.current then [x.n] else [])
  {
    assert [x][1..] == [];
  }

  /** The parts of an assembled bar, numbered and highlighted piece by piece. */
  lemma AssembleParts(page: int, totalPages: int, lo: int, hi: int, leading: bool, trailing: bool)
    ensures Numbers(Assemble(page, totalPages, Range(lo, hi), leading, trailing))
      == [1] + Range(lo, hi) + (if totalPages > 1 then [totalPages] else [])
    ensures Highlighted(Assemble(page, totalPages, Range(lo, hi), leading, trailing))
      == (if page == 1 then [1] else []) + (if lo <= page <= hi then [page] else [])
         + (if totalPages > 1 && page == totalPages then [totalPages] else [])
  {
    AssembleReading(page, totalPages, Range(lo, hi), leading, trailing);
    PageButtonsNumbers(lo, hi, page);
  }

  /** The ellipses read as nothing; page 1, the window and the last page read
      as themselves. */
  lemma AssembleReading(page: int, totalPages: int, w: seq<int>, leading: bool, trailing: bool)
    ensures Numbers(Assemble(page, totalPages, w, leading, trailing))
      == [1] + Numbers(PageButtons(w, page)) + (if totalPages > 1 then [totalPages] else [])
    ensures Highlighted(Assemble(page, totalPages, w, leading, trailing))
      == (if page == 1 then [1] else []) + Highlighted(PageButtons(w, page))
         + (if totalPages > 1 && page == totalPages then [totalPages] else [])
  {
    var first := PageButton(1, page == 1);
    var last := PageButton(totalPages, page == totalPages);
    OptionalPiece(true, first);
    OptionalPiece(leading, Ellipsis);
    OptionalPiece(trailing, Ellipsis);
    OptionalPiece(totalPages > 1, last);
    FiveReadings([first], if leading then [Ellipsis] else [], PageButtons(w, page),
                 if trailing then [Ellipsis] else [], if totalPages > 1 then [last] else [],
                 [1], [], Numbers(PageButtons(w, page)), [], if totalPages > 1 then [totalPages] else [],
                 if page == 1 then [1] else [], [], Highlighted(PageButtons(w, page)), [],
                 if totalPages > 1 && page == totalPages then [totalPages] else []);
  }

  /** An item that may be left out reads as itself when present. */
  lemma OptionalPiece(present: bool, x: Item)
    ensures Numbers(if present then [x] else []) == if present && x.PageButton? then [x.n] else []
    ensures Highlighted(if present then [x] else []) == if present && x.PageButton? && x.current then [x.n] else []
  {
    if present {
      PieceNumbers(x);
    }
  }

  /** Reading a bar of five consecutive parts reads each part in turn. */
  lemma FiveReadings(a: seq<Item>, b: seq<Item>, c: seq<Item>, d: seq<Item>, e: seq<Item>,
                     na: seq<int>, nb: seq<int>, nc: seq<int>, nd: seq<int>, ne: seq<int>,
                     ha: seq<int>, hb: seq<int>, hc: seq<int>, hd: seq<int>, he: seq<int>)
    requires Numbers(a) == na && Numbers(b) == nb && Numbers(c) == nc && Numbers(d) == nd && Numbers(e) == ne
    requires Highlighted(a) == ha && Highlighted(b) == hb && Highlighted(c) == hc && Highlighted(d) == hd && Highlighted(e) == he
    ensures Numbers(a + b + c + d + e) == na + nb + nc + nd + ne
    ensures Highlighted(a + b + c + d + e) == ha + hb + hc + hd + he
  {
    NumbersAppend(a, b);
    NumbersAppend(a + b, c);
    NumbersAppend(a + b + c, d);
    NumbersAppend(a + b + c + d, e);
  }

  /** 1, then interior pages `lo..hi`, then the last page: increasing, within
      range, and holding the current page once. */
  lemma AssembleNumbers(page: int, totalPages: int, lo: int, hi: int, leading: bool, trailing: bool)
    requires 1 <= page <= totalPages
    requires 2 <= lo && hi <= totalPages - 1
    requires 2 <= page <= totalPages - 1 ==> lo <= page <= hi
    ensures var ns := Numbers(Assemble(page, totalPages, Range(lo, hi), leading, trailing));
      StrictlyIncreasing(ns) && (forall k :: 0 <= k < |ns| ==> 1 <= ns[k] <= totalPages)
    ensures Highlighted(Assemble(page, totalPages, Range(lo, hi), leading, trailing)) == [page]
  {
    AssembleParts(page, totalPages, lo, hi, leading, trailing);
    var w := Range(lo, hi);
    var ns := [1] + w + (if totalPages > 1 then [totalPages] else []);
    assert forall k :: 0 < k <= |w| ==> ns[k] == lo + k - 1;
    assert |w| > 0 ==> lo + |w| - 1 == hi;
    assert |w| > 0 ==> totalPages > 1;
    assert |ns| - 1 > |w| ==> ns[|ns| - 1] == totalPages;
  }

  /** Whatever the ellipses, the buttons read 1, then the window, then
      `totalPages` when it exceeds 1; these numbers strictly increase and lie
      in `[1, totalPages]`, and exactly one button is highlighted: the one
      for the current page. */
  lemma LayoutNumbers(page: int, totalPages: int, leading: bool, trailing: bool)
    requires 1 <= page <= totalPages
    ensures Numbers(Layout(page, totalPages, leading, trailing))
      == [1] + Window(page, totalPages) + (if totalPages > 1 then [totalPages] else [])
    ensures StrictlyIncreasing(Numbers(Layout(page, totalPages, leading, trailing)))
    ensures forall k :: 0 <= k < |Numbers(Layout(page, totalPages, leading, trailing))| ==>
      1 <= Numbers(Layout(page, totalPages, leading, trailing))[k] <= totalPages
    ensures Highlighted(Layout(page, totalPages, leading, trailing)) == [page]
  {
    var lo, hi := WindowStart(page, totalPages), WindowEnd(page, totalPages);
    WindowFacts(page, totalPages);
    AssembleParts(page, totalPages, lo, hi, leading, trailing);
    AssembleNumbers(page, totalPages, lo, hi, leading, trailing);
  }

  /** Where the markers and the last page stand in an assembled bar. */
  lemma AssembleEnds(page: int, totalPages: int, lo: int, hi: int, leading: bool, trailing: bool)
    requires totalPages >= 1
    requires (hi < lo || totalPages <= 1) ==> !leading && !trailing
    requires totalPages <= 1 ==> hi < lo
    ensures var items := Assemble(page, totalPages, Range(lo, hi), leading, trailing);
      items[0] == PageButton(1, page == 1)
      && ((|items| > 1 && items[1] == Ellipsis) <==> leading)
      && ((|items| > 1 && items[|items| - 1] == PageButton(totalPages, page == totalPages)) <==> totalPages > 1)
      && (totalPages > 1 ==> (items[|items| - 2] == Ellipsis <==> trailing))
  {
    var w := Range(lo, hi);
    var mid := PageButtons(w, page);
    PageButtonsLength(w, page);
    if lo <= hi {
      PageButtonsAt(w, page, 0);
      PageButtonsAt(w, page, |w| - 1);
    }
  }

  /** The leading ellipsis follows page 1 exactly when `page > 4`, the
      trailing one precedes the last page exactly when
      `page < totalPages - 3 && totalPages > 5`, and the last page closes the
      bar exactly when `totalPages > 1`. */
  lemma EllipsisPlacement(page: int, totalPages: int)
    requires 1 <= page <= totalPages
    ensures var items := PaginationBar(page, totalPages).items;
      items[0] == PageButton(1, page == 1)
      && ((|items| > 1 && items[1] == Ellipsis) <==> page > 4)
      && ((|items| > 1 && items[|items| - 1] == PageButton(totalPages, page == totalPages)) <==> totalPages > 1)
      && (totalPages > 1 ==> (items[|items| - 2] == Ellipsis <==> page < totalPages - 3 && totalPages > 5))
  {
    WindowFacts(page, totalPages);
    AssembleEnds(page, totalPages, WindowStart(page, totalPages), WindowEnd(page, totalPages),
                 page > 4, page < totalPages - 3 && totalPages > 5);
  }

  lemma {:induction false} PageButtonsLength(nums: seq<int>, page: int)
    ensures |PageButtons(nums, page)| == |nums|
    decreases |nums|
  {
    if nums != [] {
      PageButtonsLength(nums[1..], page);
    }
  }

  lemma {:induction false} PageButtonsAt(nums: seq<int>, page: int, k: nat)
    requires k < |nums|
    ensures |PageButtons(nums, page)| == |nums|
    ensures PageButtons(nums, page)[k] == PageButton(nums[k], nums[k] == page)
    decreases |nums|
  {
    PageButtonsLength(nums, page);
    if k > 0 {
      PageButtonsAt(nums[1..], page, k - 1);
    }
  }

  /** Prev is disabled exactly on page 1 and otherwise steps back one page;
      Next is disabled exactly on the last page and otherwise steps forward
      one; both targets stay in `[1, totalPages]`. */
  lemma PrevNextSteps(page: int, totalPages: int)
    requires 1 <= page <= totalPages
    ensures PrevButton(page).disabled <==> page == 1
    ensures !PrevButton(page).disabled ==> PrevButton(page).target == page - 1
    ensures NextButton(page, totalPages).disabled <==> page == totalPages
    ensures !NextButton(page, totalPages).disabled ==> NextButton(page, totalPages).target == page + 1
    ensures 1 <= PrevButton(page).target <= totalPages && 1 <= NextButton(page, totalPages).target <= totalPages
  {
  }

  // ---------------------------------------------------------------------------
  // Clicking
  // ---------------------------------------------------------------------------

  /** A click on Prev, on Next, or on the item at an index of the bar. */
  datatype Control = PrevControl | NextControl | ItemControl(index: nat)

  /** The page a click sets, if the click does anything. */
  function Press(bar: Bar, c: Control): Option<int> {
    match c
    case PrevControl => if bar.prev.disabled then None else Some(bar.prev.target)
    case NextControl => if bar.next.disabled then None else Some(bar.next.target)
    case ItemControl(k) =>
      if k < |bar.items| && bar.items[k].PageButton? then Some(bar.items[k].n) else None
  }

  /** The page after one click on the home page's bar. */
  function Navigate(page: int, totalPages: int, c: Control): int {
    match Press(PaginationBar(page, totalPages), c)
    case Some(t) => t
    case None => page
  }

  /** The page after a sequence of clicks. */
  function Browse(page: int, totalPages: int, cs: seq<Control>): int
    decreases |cs|
  {
    if cs == [] then page else Browse(Navigate(page, totalPages, cs[0]), totalPages, cs[1..])
  }

  lemma {:induction false} ItemInNumbers(items: seq<Item>, k: nat)
    requires k < |items| && items[k].PageButton?
    ensures items[k].n in Numbers(items)
    decreases |items|
  {
    if k > 0 {
      ItemInNumbers(items[1..], k - 1);
    }
  }

  /** Every enabled control sets a page in `[1, totalPages]`. */
  lemma NavigateInRange(page: int, totalPages: int, c: Control)
    requires 1 <= page <= totalPages
    ensures 1 <= Navigate(page, totalPages, c) <= totalPages
  {
    var bar := PaginationBar(page, totalPages);
    PrevNextSteps(page, totalPages);
    if c.ItemControl? && c.index < |bar.items| && bar.items[c.index].PageButton? {
      LayoutNumbers(page, totalPages, page > 4, page < totalPages - 3 && totalPages > 5);
      ItemInNumbers(bar.items, c.index);
    }
  }

  /** However the user clicks, the page never leaves `[1, totalPages]`. */
  lemma {:induction false} BrowseStaysInRange(page: int, totalPages: int, cs: seq<Control>)
    requires 1 <= page <= totalPages
    ensures 1 <= Browse(page, totalPages, cs) <= totalPages
    decreases |cs|
  {
    if cs != [] {
      NavigateInRange(page, totalPages, cs[0]);
      BrowseStaysInRange(Navigate(page, totalPages, cs[0]), totalPages, cs[1..]);
    }
  }

  // ---------------------------------------------------------------------------
  // Worked cases
  // ---------------------------------------------------------------------------

  /** Page 1 of 10: `1* 2 3 4 5 ... 10`, Prev disabled, Next enabled. */
  lemma FirstOfTen()
    ensures PaginationBar(1, 10) == Bar(Nav(1, true),
      [PageButton(1, true), PageButton(2, false), PageButton(3, false), PageButton(4, false),
       PageButton(5, false), Ellipsis, PageButton(10, false)],
      Nav(2, false))
  {
    assert Window(1, 10) == [2, 3, 4, 5];
    assert PageButtons([5], 1) == [PageButton(5, false)];
    assert PageButtons([4, 5], 1) == [PageButton(4, false)] + PageButtons([5], 1);
    assert PageButtons([3, 4, 5], 1) == [PageButton(3, false)] + PageButtons([4, 5], 1);
    assert PageButtons([2, 3, 4, 5], 1) == [PageButton(2, false)] + PageButtons([3, 4, 5], 1);
  }

  /** Page 5 of 10: `1 ... 5* 6 7 8 ... 10`. */
  lemma FifthOfTen()
    ensures PaginationBar(5, 10).items ==
      [PageButton(1, false), Ellipsis, PageButton(5, true), PageButton(6, false), PageButton(7, false),
       PageButton(8, false), Ellipsis, PageButton(10, false)]
  {
    assert Window(5, 10) == [5, 6, 7, 8];
    assert PageButtons([8], 5) == [PageButton(8, false)];
    assert PageButtons([7, 8], 5) == [PageButton(7, false)] + PageButtons([8], 5);
    assert PageButtons([6, 7, 8], 5) == [PageButton(6, false)] + PageButtons([7, 8], 5);
    assert PageButtons([5, 6, 7, 8], 5) == [PageButton(5, true)] + PageButtons([6, 7, 8], 5);
  }

  /** Page 10 of 10: `1 ... 6 7 8 9 10*`, Next disabled. */
  lemma LastOfTen()
    ensures PaginationBar(10, 10) == Bar(Nav(9, false),
      [PageButton(1, false), Ellipsis, PageButton(6, false), PageButton(7, false), PageButton(8, false),
       PageButton(9, false), PageButton(10, true)],
      Nav(10, true))
  {
    assert Window(10, 10) == [6, 7, 8, 9];
    assert PageButtons([9], 10) == [PageButton(9, false)];
    assert PageButtons([8, 9], 10) == [PageButton(8, false)] + PageButtons([9], 10);
    assert PageButtons([7, 8, 9], 10) == [PageButton(7, false)] + PageButtons([8, 9], 10);
    assert PageButtons([6, 7, 8, 9], 10) == [PageButton(6, false)] + PageButtons([7, 8, 9], 10);
  }

  /** A single page: `1*` with both Prev and Next disabled. */
  lemma SinglePage()
    ensures PaginationBar(1, 1) == Bar(Nav(1, true), [PageButton(1, true)], Nav(1, true))
  {
    assert Window(1, 1) == [];
  }

  // ---------------------------------------------------------------------------
  // Ellipses and gaps
  // ---------------------------------------------------------------------------

  /** Every ellipsis stands between two page buttons with pages missing
      between them, and two adjacent page buttons are consecutive pages: the
      markers are exactly where pages are skipped. */
  predicate GapsMarked(items: seq<Item>) {
    (forall i :: 0 <= i < |items| && items[i].Ellipsis? ==>
      0 < i < |items| - 1 && items[i - 1].PageButton? && items[i + 1].PageButton?
      && items[i + 1].n > items[i - 1].n + 1)
    && (forall i :: 0 < i < |items| && items[i - 1].PageButton? && items[i].PageButton? ==>
      items[i].n == items[i - 1].n + 1)
  }

  /** As written, the ellipsis conditions look at `page` rather than at the
      window: on page 3 of 10 page 2 is skipped without a marker, on page 6 of
      10 a marker stands between 9 and 10, and on page 5 of 5 one stands
      between 1 and 2. */
  lemma AsWrittenMisplacesEllipses()
    ensures !GapsMarked(PaginationBar(3, 10).items)
    ensures !GapsMarked(PaginationBar(6, 10).items)
    ensures !GapsMarked(PaginationBar(5, 5).items)
  {
    SkippedWithoutMarker();
    MarkerBeforeLastWithoutGap();
    MarkerAfterFirstWithoutGap();
  }

  /** Page 3 of 10 shows `1 3* 4 5 6 ... 10`. */
  lemma SkippedWithoutMarker()
    ensures !GapsMarked(PaginationBar(3, 10).items)
  {
    assert Window(3, 10) == [3, 4, 5, 6];
    assert PaginationBar(3, 10).items[0] == PageButton(1, false);
    assert PaginationBar(3, 10).items[1] == PageButton(3, true);
  }

  /** Page 6 of 10 shows `1 ... 6* 7 8 9 ... 10`. */
  lemma MarkerBeforeLastWithoutGap()
    ensures !GapsMarked(PaginationBar(6, 10).items)
  {
    assert Window(6, 10) == [6, 7, 8, 9];
    assert PaginationBar(6, 10).items[5] == PageButton(9, false);
    assert PaginationBar(6, 10).items[6] == Ellipsis;
    assert PaginationBar(6, 10).items[7] == PageButton(10, false);
  }

  /** Page 5 of 5 shows `1 ... 2 3 4 5*`. */
  lemma MarkerAfterFirstWithoutGap()
    ensures !GapsMarked(PaginationBar(5, 5).items)
  {
    assert Window(5, 5) == [2, 3, 4];
    assert PaginationBar(5, 5).items[0] == PageButton(1, false);
    assert PaginationBar(5, 5).items[1] == Ellipsis;
    assert PaginationBar(5, 5).items[2] == PageButton(2, false);
  }

  /** The bar with the ellipses placed by the window itself: before it when it
      starts after page 2, after it when it ends before `totalPages - 1`. */
  function MarkedPaginationBar(page: int, totalPages: int): Bar {
    Bar(PrevButton(page),
        Layout(page, totalPages,
               WindowStart(page, totalPages) > 2,
               WindowEnd(page, totalPages) < totalPages - 1),
        NextButton(page, totalPages))
  }

  lemma {:induction false} GapsMarkedButtons(lo: int, hi: int, page: int)
    ensures GapsMarked(PageButtons(Range(lo, hi), page))
    ensures |PageButtons(Range(lo, hi), page)| == |Range(lo, hi)|
  {
    var w := Range(lo, hi);
    var b := PageButtons(w, page);
    PageButtonsLength(w, page);
    forall i | 0 <= i < |b| ensures b[i] == PageButton(lo + i, lo + i == page) {
      PageButtonsAt(w, page, i);
    }
  }

  lemma GapsMarkedJoin(a: seq<Item>, b: seq<Item>, gap: bool)
    requires GapsMarked(a) && GapsMarked(b) && a != [] && b != []
    requires a[|a| - 1].PageButton? && b[0].PageButton?
    requires b[0].n > a[|a| - 1].n
    requires gap <==> b[0].n > a[|a| - 1].n + 1
    ensures GapsMarked(a + (if gap then [Ellipsis] else []) + b)
  {
    var g: seq<Item> := if gap then [Ellipsis] else [];
    var c := a + g + b;
    assert forall i :: 0 <= i < |a| ==> c[i] == a[i];
    assert forall i :: |a| + |g| <= i < |c| ==> c[i] == b[i - |a| - |g|];
    assert gap ==> c[|a|] == Ellipsis;
    forall i | 0 <= i < |c| && c[i].Ellipsis?
      ensures 0 < i < |c| - 1 && c[i - 1].PageButton? && c[i + 1].PageButton? && c[i + 1].n > c[i - 1].n + 1
    {
      if i < |a| {
        assert c[i] == a[i];
        assert i < |a| - 1 && c[i - 1] == a[i - 1] && c[i + 1] == a[i + 1];
      } else if i < |a| + |g| {
        assert c[i - 1] == a[|a| - 1] && c[i + 1] == b[0];
      } else {
        assert c[i] == b[i - |a| - |g|];
        assert c[i - 1] == b[i - 1 - |a| - |g|] && c[i + 1] == b[i + 1 - |a| - |g|];
      }
    }
    forall i | 0 < i < |c| && c[i - 1].PageButton? && c[i].PageButton? ensures c[i].n == c[i - 1].n + 1 {
      if i < |a| {
        assert c[i - 1] == a[i - 1];
      } else if i == |a| && !gap {
        assert c[i - 1] == a[|a| - 1];
      } else if i > |a| + |g| {
        assert c[i - 1] == b[i - 1 - |a| - |g|];
      }
    }
  }

  /** Page 1, the marker when the window starts after page 2, and the window. */
  lemma MarkedLeft(page: int, s: int, e: int)
    requires 2 <= s <= e
    ensures var left := [PageButton(1, page == 1)] + (if s > 2 then [Ellipsis] else []) + PageButtons(Range(s, e), page);
      GapsMarked(left) && left[|left| - 1] == PageButton(e, e == page)
  {
    var first: seq<Item> := [PageButton(1, page == 1)];
    var mid := PageButtons(Range(s, e), page);
    GapsMarkedButtons(s, e, page);
    PageButtonsAt(Range(s, e), page, 0);
    PageButtonsAt(Range(s, e), page, e - s);
    GapsMarkedJoin(first, mid, s > 2);
    var left := first + (if s > 2 then [Ellipsis] else []) + mid;
    assert left[|left| - 1] == mid[|mid| - 1];
  }

  /** With the ellipses placed by the window, they mark exactly the skipped
      pages, while the page numbers and the highlight stay as before. */
  lemma MarkedBarMarksGaps(page: int, totalPages: int)
    requires 1 <= page <= totalPages
    ensures GapsMarked(MarkedPaginationBar(page, totalPages).items)
    ensures Numbers(MarkedPaginationBar(page, totalPages).items) == Numbers(PaginationBar(page, totalPages).items)
    ensures Highlighted(MarkedPaginationBar(page, totalPages).items) == [page]
  {
    var s, e := WindowStart(page, totalPages), WindowEnd(page, totalPages);
    var leading, trailing := s > 2, e < totalPages - 1;
    var items := MarkedPaginationBar(page, totalPages).items;
    LayoutNumbers(page, totalPages, leading, trailing);
    LayoutNumbers(page, totalPages, page > 4, page < totalPages - 3 && totalPages > 5);
    MarkedBarGaps(page, totalPages);
  }

  lemma MarkedBarGaps(page: int, totalPages: int)
    requires 1 <= page <= totalPages
    ensures GapsMarked(MarkedPaginationBar(page, totalPages).items)
  {
    WindowFacts(page, totalPages);
    AssembleGaps(page, totalPages, WindowStart(page, totalPages), WindowEnd(page, totalPages));
  }

  /** A bar over a window `[lo, hi]` inside `[2, totalPages - 1]`, with the
      markers placed where the window leaves pages out. */
  lemma AssembleGaps(page: int, totalPages: int, lo: int, hi: int)
    requires totalPages >= 1 && 2 <= lo && hi <= totalPages - 1
    requires totalPages >= 3 ==> lo <= hi
    requires totalPages <= 2 ==> lo == 2 && hi == totalPages - 1
    ensures GapsMarked(Assemble(page, totalPages, Range(lo, hi), lo > 2, hi < totalPages - 1))
  {
    var items := Assemble(page, totalPages, Range(lo, hi), lo > 2, hi < totalPages - 1);
    var first: seq<Item> := [PageButton(1, page == 1)];
    var last: seq<Item> := [PageButton(totalPages, page == totalPages)];
    if totalPages == 1 {
      assert Range(lo, hi) == [];
      assert items == first;
    } else if totalPages == 2 {
      assert Range(lo, hi) == [];
      assert items == first + [] + last;
      GapsMarkedJoin(first, last, false);
    } else {
      var left := first + (if lo > 2 then [Ellipsis] else []) + PageButtons(Range(lo, hi), page);
      MarkedLeft(page, lo, hi);
      GapsMarkedJoin(left, last, hi < totalPages - 1);
      assert items == left + (if hi < totalPages - 1 then [Ellipsis] else []) + last;
    }
  }
}
