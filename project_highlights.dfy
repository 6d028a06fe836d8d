/**
 * The "Magical Creations" carousel: a fixed list of highlighted projects,
 * shown four at a time on a desktop-width window (clamped at both ends)
 * and one at a time otherwise (wrapping round), with a dot per slide.
 */
module ProjectHighlights {

  /** A highlighted project card (its icon is presentation only). */
  datatype Highlight = Highlight(title: string, description: string, tags: seq<string>)

  /** `projectsData` */
  const ProjectsData: seq<Highlight> := [
    Highlight("Enchanted E-Commerce",
              "A full-stack e-commerce platform with magical user experiences and seamless payment integration.",
              ["Next.js", "Stripe", "Tailwind CSS"]),
    Highlight("Spellbound Dashboard",
              "An admin dashboard with real-time analytics and interactive data visualization.",
              ["React", "D3.js", "Firebase"]),
    Highlight("Mystic Messenger",
              "A real-time chat application with end-to-end encryption and magical animations.",
              ["Socket.io", "Express", "MongoDB"]),
    Highlight("Arcane API",
              "A RESTful API service with comprehensive documentation and robust authentication.",
              ["Node.js", "Express", "JWT"]),
    Highlight("Divination Blog",
              "A content management system with markdown support and SEO optimization.",
              ["Gatsby", "GraphQL", "Netlify CMS"]),
    Highlight("Crystal Compiler",
              "A custom language compiler that translates magical incantations into executable code.",
              ["TypeScript", "ANTLR", "WebAssembly"])
  ]

  /** Cards shown at once on a desktop-width window. */
  const DesktopCards := 4

  /** `window.innerWidth >= 1024` */
  const DesktopMinWidth := 1024

  function Max(a: int, b: int): int { if a < b then b else a }
  function Min(a: int, b: int): int { if a < b then a else b }

  /** `Math.max(0, projectsData.length - 4)`: the furthest desktop start. */
  function MaxDesktopIndex(n: nat): (r: nat)
  {
    Max(0, n - DesktopCards)
  }

  /** The index after `nextSlide`. On a narrow window `(prev + 1) % n`,
      where `prev` is never negative, so JavaScript's `%` agrees with
      Dafny's. */
  function NextIndex(prev: nat, n: nat, desktop: bool): (r: nat)
    requires n > 0
    ensures desktop ==> r <= MaxDesktopIndex(n) && (prev < MaxDesktopIndex(n) ==> r == prev + 1)
    ensures !desktop ==> r < n
  {
    if desktop then Min(prev + 1, MaxDesktopIndex(n))
    else (prev + 1) % n
  }

  /** The index after `prevSlide`: `Math.max(prev - 1, 0)` on a desktop
      window, `(prev - 1 + n) % n` otherwise. */
  function PrevIndex(prev: nat, n: nat, desktop: bool): (r: nat)
    requires n > 0
    ensures desktop ==> r <= prev && (prev > 0 ==> r == prev - 1)
    ensures !desktop && prev < n ==> r < n
  {
    if desktop then Max(prev - 1, 0)
    else (prev - 1 + n) % n
  }

  /** A remainder of a value below the divisor is the value. */
  lemma ModBelow(a: int, n: int)
    requires 0 <= a < n
    ensures a % n == a
  {
    assert a == n * 0 + a;
  }

  /** A remainder of a value in the second round is the value less one
      round. */
  lemma ModSecondRound(a: int, n: int)
    requires n <= a < 2 * n
    ensures a % n == a - n
  {
    assert a == n * 1 + (a - n);
  }

  /** On a narrow window next and previous undo each other. */
  lemma MobileWrapInverse(i: nat, n: nat)
    requires 0 <= i < n
    ensures PrevIndex(NextIndex(i, n, false), n, false) == i
    ensures NextIndex(PrevIndex(i, n, false), n, false) == i
  {
    var next := if i + 1 == n then 0 else i + 1;
    if i + 1 == n {
      ModSecondRound(i + 1, n);
    } else {
      ModBelow(i + 1, n);
    }
    assert NextIndex(i, n, false) == next;
    if next == 0 {
      ModBelow(n - 1, n);
    } else {
      ModSecondRound(next - 1 + n, n);
    }
    var prev := if i == 0 then n - 1 else i - 1;
    if i == 0 {
      ModBelow(n - 1, n);
    } else {
      ModSecondRound(i - 1 + n, n);
    }
    assert PrevIndex(i, n, false) == prev;
    if prev + 1 == n {
      ModSecondRound(prev + 1, n);
    } else {
      ModBelow(prev + 1, n);
    }
  }

  /** On a desktop window, from a start within the clamp, next never leaves
      it; previous from a later start steps straight back. */
  lemma DesktopStaysClamped(i: nat, n: nat)
    requires n > 0 && i <= MaxDesktopIndex(n)
    ensures NextIndex(i, n, true) <= MaxDesktopIndex(n)
    ensures i < MaxDesktopIndex(n) ==> PrevIndex(NextIndex(i, n, true), n, true) == i
  {
  }

  /** `currentIndex >= projectsData.length - 4`: the desktop next button
      is disabled. */
  predicate NextDisabled(i: int, n: nat)
  {
    i >= n - DesktopCards
  }

  /** The next button is disabled exactly when pressing it would not move
      the carousel forward. */
  lemma NextDisabledIffStuck(i: nat, n: nat)
    requires n > 0
    ensures NextDisabled(i, n) <==> NextIndex(i, n, true) <= i
  {
  }

  /** `getVisibleCards`: `slice(i, i + 4)` on a desktop window (fewer cards
      near the end), the one card at `i` otherwise. */
  function VisibleCards<T>(cards: seq<T>, i: nat, desktop: bool): (r: seq<T>)
    requires i < |cards|
    ensures desktop ==> 0 < |r| <= DesktopCards && i + |r| <= |cards| && r == cards[i..i + |r|]
    ensures desktop ==> (|r| == DesktopCards <==> i + DesktopCards <= |cards|)
    ensures !desktop ==> r == [cards[i]]
  {
    if desktop then cards[i..Min(i + DesktopCards, |cards|)]
    else [cards[i]]
  }

  /** `getTotalSlides`: the number of pagination dots. */
  function TotalSlides(n: nat, desktop: bool): (r: nat)
    ensures desktop ==> r == Max(1, n - 2)
    ensures !desktop ==> r == n
    ensures 0 < n ==> 0 < r <= n
  {
    if desktop then Max(1, n - 2) else n
  }

  /** With the six built-in cards the desktop carousel has four dots but
      stops at start 2: the fourth dot jumps to start 3, which no press of
      next reaches and which shows three cards, not four. */
  lemma DesktopDotsOverrun()
    ensures |ProjectsData| == 6
    ensures TotalSlides(|ProjectsData|, true) == 4
    ensures MaxDesktopIndex(|ProjectsData|) == 2
    ensures forall i: nat :: i <= MaxDesktopIndex(|ProjectsData|) ==> NextIndex(i, |ProjectsData|, true) != 3
    ensures |VisibleCards(ProjectsData, 3, true)| == 3
  {
  }

  /** One desktop dot per start that next and previous reach. */
  function DesktopPageCount(n: nat): (r: nat)
  {
    MaxDesktopIndex(n) + 1
  }

  /** The dots of `DesktopPageCount` are exactly the starts the buttons
      reach from the first: each is the result of that many presses of
      next, and each starts a full page (`VisibleCards`) when there are four
      cards or more. */
  lemma DesktopPagesReachable(n: nat, k: nat)
    requires n > 0
    ensures k < DesktopPageCount(n) <==> k <= MaxDesktopIndex(n)
    ensures k < DesktopPageCount(n) ==> NextPresses(k, n) == k
    ensures k < DesktopPageCount(n) && n >= DesktopCards ==> k + DesktopCards <= n
  {
    if k < DesktopPageCount(n) {
      NextPressesCount(k, n);
    }
  }

  /** Where `k` presses of next lead from the first start on a desktop
      window. */
  function NextPresses(k: nat, n: nat): (r: nat)
    requires n > 0
  {
    if k == 0 then 0 else NextIndex(NextPresses(k - 1, n), n, true)
  }

  lemma {:induction false} NextPressesCount(k: nat, n: nat)
    requires n > 0 && k <= MaxDesktopIndex(n)
    ensures NextPresses(k, n) == k
  {
    if k > 0 {
      NextPressesCount(k - 1, n);
    }
  }

  /** The carousel's state. */
  class Carousel {
    const cards: seq<Highlight>
    var currentIndex: int
    var isDesktop: bool

    /** The index always names a card. */
    predicate Valid()
      reads this
    {
      |cards| > 0 && 0 <= currentIndex < |cards|
    }

    constructor(data: seq<Highlight>)
      requires |data| > 0
      ensures Valid()
      ensures cards == data && currentIndex == 0 && !isDesktop
    {
      cards := data;
      currentIndex := 0;
      isDesktop := false;
    }

    /** `checkIsDesktop`, run on mount and on every resize. */
    method CheckIsDesktop(innerWidth: int)
      requires Valid()
      modifies this
      ensures Valid()
      ensures isDesktop == (innerWidth >= DesktopMinWidth) && currentIndex == old(currentIndex)
    {
      isDesktop := innerWidth >= DesktopMinWidth;
    }

    /** `nextSlide` */
    method NextSlide()
      requires Valid()
      modifies this
      ensures Valid()
      ensures currentIndex == NextIndex(old(currentIndex), |cards|, isDesktop) && isDesktop == old(isDesktop)
    {
      if isDesktop {
        var maxIndex := Max(0, |cards| - DesktopCards);
        currentIndex := Min(currentIndex + 1, maxIndex);
      } else {
        currentIndex := (currentIndex + 1) % |cards|;
      }
    }

    /** `prevSlide` */
    method PrevSlide()
      requires Valid()
      modifies this
      ensures Valid()
      ensures currentIndex == PrevIndex(old(currentIndex), |cards|, isDesktop) && isDesktop == old(isDesktop)
    {
      if isDesktop {
        currentIndex := Max(currentIndex - 1, 0);
      } else {
        currentIndex := (currentIndex - 1 + |cards|) % |cards|;
      }
    }

    /** `goToSlide`, called from the pagination dots only. */
    method GoToSlide(index: int)
      requires Valid()
      requires 0 <= index < TotalSlides(|cards|, isDesktop)
      modifies this
      ensures Valid()
      ensures currentIndex == index && isDesktop == old(isDesktop)
    {
      currentIndex := index;
    }
  }
}
