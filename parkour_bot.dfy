/**
 * The personal site's parkour bot: a figure that perches on a page element
 * and, every few hundred milliseconds, jumps to the visible target nearest a
 * focus line at 30% of the viewport height. The element rectangles, the scroll
 * offset and the viewport height are inputs; the landing timeout is the `Land`
 * method, called when the jump's duration has passed.
 */
module ParkourBot {
  import opened Wrappers

  /** A candidate element (`.video-card, .card, #travel-map, h1`); elements are compared by identity. */
  datatype Element = Element(id: nat, isH1: bool)

  /** `getBoundingClientRect()`: viewport coordinates in pixels. */
  datatype Rect = Rect(top: real, bottom: real, left: real, width: real)

  /** A target in document order, with its current rectangle. */
  datatype Target = Target(el: Element, rect: Rect)

  /** The bot's class list, as far as the movement logic sets it. */
  datatype Pose = Unstyled | Sitting | Falling | Arc

  const FocusFraction: real := 0.3
  const PerchOffset: real := 35.0
  const LeftInset: real := 20.0
  const RightInset: real := 50.0
  const FallThreshold: real := 100.0
  const FallDuration: int := 800
  const ArcDuration: int := 700
  const MinWidth: int := 900

  function Abs(x: real): real
  {
    if x < 0.0 then -x else x
  }

  /** The rectangle overlaps the viewport vertically. */
  predicate Visible(r: Rect, viewportHeight: real)
  {
    r.bottom > 0.0 && r.top < viewportHeight
  }

  /** Distance of the target's page top from the focus line. */
  function Dist(r: Rect, scrollY: real, viewportHeight: real): real
  {
    Abs((r.top + scrollY) - (scrollY + viewportHeight * FocusFraction))
  }

  /** The `forEach` scan: index of the best target so far, replaced only on a strictly smaller distance. */
  function Nearest(ts: seq<Target>, scrollY: real, viewportHeight: real): (r: Option<nat>)
    ensures r.Some? ==> r.value < |ts|
  {
    if ts == [] then None
    else
      var n := |ts| - 1;
      var p := Nearest(ts[..n], scrollY, viewportHeight);
      if Visible(ts[n].rect, viewportHeight)
         && (p.None? || Dist(ts[n].rect, scrollY, viewportHeight) < Dist(ts[p.value].rect, scrollY, viewportHeight))
      then Some(n)
      else p
  }

  /**
   * The scan finds a target iff one is visible; the one it finds is visible,
   * no visible target is nearer, and every visible target before it is
   * strictly farther: the earliest wins ties.
   */
  lemma {:induction false} NearestSpec(ts: seq<Target>, scrollY: real, viewportHeight: real)
    ensures Nearest(ts, scrollY, viewportHeight).None? <==> forall j :: 0 <= j < |ts| ==> !Visible(ts[j].rect, viewportHeight)
    ensures var r := Nearest(ts, scrollY, viewportHeight);
      r.Some? ==>
        && Visible(ts[r.value].rect, viewportHeight)
        && (forall j :: 0 <= j < |ts| && Visible(ts[j].rect, viewportHeight) ==>
              Dist(ts[r.value].rect, scrollY, viewportHeight) <= Dist(ts[j].rect, scrollY, viewportHeight))
        && (forall j :: 0 <= j < r.value && Visible(ts[j].rect, viewportHeight) ==>
              Dist(ts[r.value].rect, scrollY, viewportHeight) < Dist(ts[j].rect, scrollY, viewportHeight))
  {
    if ts != [] {
      var n := |ts| - 1;
      var prefix := ts[..n];
      NearestSpec(prefix, scrollY, viewportHeight);
      assert forall j :: 0 <= j < n ==> prefix[j] == ts[j];
    }
  }

  /** `updatePos`'s scan as a loop: the same index as `Nearest`. */
  method BestTarget(targets: seq<Target>, scrollY: real, viewportHeight: real) returns (bestTarget: Option<nat>)
    ensures bestTarget == Nearest(targets, scrollY, viewportHeight)
  {
    bestTarget := None;
    var minDistance := 0.0;   // stands for Infinity while bestTarget is None
    var i := 0;
    while i < |targets|
      invariant 0 <= i <= |targets|
      invariant bestTarget == Nearest(targets[..i], scrollY, viewportHeight)
      invariant bestTarget.Some? ==> bestTarget.value < i && minDistance == Dist(targets[bestTarget.value].rect, scrollY, viewportHeight)
    {
      assert targets[..i + 1][..i] == targets[..i];
      var rect := targets[i].rect;
      if rect.bottom > 0.0 && rect.top < viewportHeight {
        var dist := Abs((rect.top + scrollY) - (scrollY + viewportHeight * FocusFraction));
        if bestTarget.None? || dist < minDistance {
          minDistance := dist;
          bestTarget := Some(i);
        }
      }
      i := i + 1;
    }
    assert targets[..i] == targets;
  }

  /** Where and how a jump ends. */
  datatype Jump = Jump(endLeft: real, endTop: real, facingLeft: bool, falling: bool, duration: int)

  /** `jumpTo`'s landing computation from the bot's current position. */
  function Landing(startLeft: real, startTop: real, el: Element, rect: Rect, scrollY: real): (j: Jump)
    ensures j.endTop + PerchOffset == rect.top + scrollY
    ensures j.facingLeft <==> j.endLeft < startLeft
    ensures j.falling <==> j.endTop > startTop + FallThreshold
    ensures j.duration == (if j.falling then FallDuration else ArcDuration)
    ensures el.isH1 || startLeft < rect.left + rect.width / 2.0 ==> j.endLeft == rect.left + LeftInset
    ensures !el.isH1 && startLeft >= rect.left + rect.width / 2.0 ==> j.endLeft == rect.left + rect.width - RightInset
  {
    var targetCenter := rect.left + rect.width / 2.0;
    var endLeft := if el.isH1 then rect.left + LeftInset
                   else if startLeft < targetCenter then rect.left + LeftInset
                   else (rect.left + rect.width) - RightInset;
    var endTop := (rect.top + scrollY) - PerchOffset;
    var falling := endTop > startTop + FallThreshold;
    Jump(endLeft, endTop, endLeft < startLeft, falling, if falling then FallDuration else ArcDuration)
  }

  /**
   * On a target at least 50 px wide the bot lands within its horizontal
   * extent; on one at least 100 px wide, and not a heading, it lands on the
   * half it came from.
   */
  lemma LandsOnTarget(startLeft: real, startTop: real, el: Element, rect: Rect, scrollY: real)
    requires rect.width >= RightInset
    ensures var j := Landing(startLeft, startTop, el, rect, scrollY);
      rect.left <= j.endLeft <= rect.left + rect.width
    ensures var j := Landing(startLeft, startTop, el, rect, scrollY);
      !el.isH1 && rect.width >= 2.0 * RightInset ==>
        (startLeft < rect.left + rect.width / 2.0 <==> j.endLeft < rect.left + rect.width / 2.0)
  {
  }

  /** `updatePos` jumps: not already jumping, and the nearest visible target is not the current one. */
  predicate JumpDue(targets: seq<Target>, scrollY: real, viewportHeight: real, isJumping: bool, currentTarget: Option<Element>)
  {
    var best := Nearest(targets, scrollY, viewportHeight);
    !isJumping && best.Some? && Some(targets[best.value].el) != currentTarget
  }

  class Bot {
    var currentTarget: Option<Element>
    var isJumping: bool
    var left: real
    var top: real
    var facingLeft: bool
    var pose: Pose
    /** The duration of the landing timeout scheduled by the jump in flight. */
    var pendingLanding: Option<int>

    ghost predicate Valid()
      reads this
    {
      isJumping <==> pendingLanding.Some?
    }

    /** `initBot`: perch on the page's first heading if there is one. */
    constructor (h1: Option<Target>)
      ensures Valid() && !isJumping
      ensures h1.None? ==> currentTarget.None? && left == 0.0 && top == 0.0 && pose == Unstyled
      ensures h1.Some? ==> currentTarget == Some(h1.value.el) && pose == Sitting
      ensures h1.Some? ==> top == h1.value.rect.top - PerchOffset && left == h1.value.rect.left + LeftInset
    {
      currentTarget := None;
      isJumping := false;
      left, top := 0.0, 0.0;
      facingLeft := false;
      pose := Unstyled;
      pendingLanding := None;
      if h1.Some? {
        top := h1.value.rect.top - PerchOffset;
        left := h1.value.rect.left + LeftInset;
        currentTarget := Some(h1.value.el);
        pose := Sitting;
      }
    }

    /** `jumpTo`: ignored while a jump is in flight; otherwise start the jump to the element. */
    method JumpTo(el: Element, rect: Rect, scrollY: real)
      requires Valid()
      modifies this
      ensures Valid()
      ensures old(isJumping) ==> unchanged(this)
      ensures !old(isJumping) ==>
        var j := Landing(old(left), old(top), el, rect, scrollY);
        && isJumping && currentTarget == Some(el) && pendingLanding == Some(j.duration)
        && left == j.endLeft && top == j.endTop && facingLeft == j.facingLeft
        && pose == (if j.falling then Falling else Arc)
    {
      if isJumping {
        return;
      }
      isJumping := true;
      currentTarget := Some(el);
      var jump := Landing(left, top, el, rect, scrollY);
      facingLeft := jump.facingLeft;
      pose := if jump.falling then Falling else Arc;
      top := jump.endTop;
      left := jump.endLeft;
      pendingLanding := Some(jump.duration);
    }

    /** The landing timeout: sit down and accept the next jump. */
    method Land()
      requires Valid() && isJumping
      modifies this
      ensures Valid() && !isJumping && pose == Sitting
      ensures currentTarget == old(currentTarget) && left == old(left) && top == old(top) && facingLeft == old(facingLeft)
    {
      pose := Sitting;
      isJumping := false;
      pendingLanding := None;
    }

    /**
     * `updatePos`: while not jumping, jump to the nearest visible target when
     * it is not the current one; otherwise nothing changes.
     */
    method UpdatePos(targets: seq<Target>, scrollY: real, viewportHeight: real)
      requires Valid()
      modifies this
      ensures Valid()
      ensures !JumpDue(targets, scrollY, viewportHeight, old(isJumping), old(currentTarget)) ==> unchanged(this)
      ensures JumpDue(targets, scrollY, viewportHeight, old(isJumping), old(currentTarget)) ==>
        var best := Nearest(targets, scrollY, viewportHeight).value;
        var j := Landing(old(left), old(top), targets[best].el, targets[best].rect, scrollY);
        && isJumping && currentTarget == Some(targets[best].el) && pendingLanding == Some(j.duration)
        && left == j.endLeft && top == j.endTop && facingLeft == j.facingLeft
        && pose == (if j.falling then Falling else Arc)
    {
      if isJumping {
        return;
      }
      var bestTarget := BestTarget(targets, scrollY, viewportHeight);
      if bestTarget.Some? && Some(targets[bestTarget.value].el) != currentTarget {
        JumpTo(targets[bestTarget.value].el, targets[bestTarget.value].rect, scrollY);
      }
    }
  }

  /**
   * The page script's start: when the bot element exists, the window is at
   * least 900 px wide and the bot was never dismissed, `initBot` runs;
   * otherwise the element is removed and no bot moves.
   */
  method Startup(hasElement: bool, innerWidth: int, dismissed: Option<string>, h1: Option<Target>) returns (bot: Option<Bot>)
    ensures bot.Some? <==> hasElement && innerWidth >= MinWidth && dismissed != Some("true")
    ensures bot.Some? ==> fresh(bot.value) && bot.value.Valid() && !bot.value.isJumping
    ensures bot.Some? && h1.None? ==> bot.value.currentTarget.None? && bot.value.pose == Unstyled
    ensures bot.Some? && h1.Some? ==>
      && bot.value.currentTarget == Some(h1.value.el) && bot.value.pose == Sitting
      && bot.value.top == h1.value.rect.top - PerchOffset && bot.value.left == h1.value.rect.left + LeftInset
  {
    if !hasElement {
      return None;
    }
    if innerWidth < MinWidth || dismissed == Some("true") {
      bot := None;
    } else {
      var b := new Bot(h1);
      bot := Some(b);
    }
  }

  /**
   * The perch `initBot` picks on the heading is where a jump onto the heading
   * would land when the page is not scrolled.
   */
  lemma PerchIsLanding(h1: Target, startLeft: real, startTop: real)
    requires h1.el.isH1
    ensures var j := Landing(startLeft, startTop, h1.el, h1.rect, 0.0);
      j.endTop == h1.rect.top - PerchOffset && j.endLeft == h1.rect.left + LeftInset
  {
  }

  /** With the bot perched on the nearest target, scans change nothing until the layout changes. */
  method SettledBotStays(targets: seq<Target>, scrollY: real, viewportHeight: real) returns (moved: bool)
    ensures !moved
  {
    var b := new Bot(None);
    b.UpdatePos(targets, scrollY, viewportHeight);
    if b.isJumping {
      b.Land();
    }
    var where := (b.left, b.top, b.currentTarget);
    b.UpdatePos(targets, scrollY, viewportHeight);
    moved := where != (b.left, b.top, b.currentTarget);
  }
}
