/**
  The "thinking" status animation shown while a recording is being answered:
  every 500 ms the dot count advances modulo 4 and the status line shows
  that many dots after the label.
 */
module Thinking {
  import opened Text

  const Label: string := "\U{1F914} Thinking"

  /** `dotCount = (dotCount + 1) % 4`. */
  function NextDotCount(c: nat): (r: nat)
    requires c < 4
    ensures r < 4
    ensures r == 0 <==> c == 3
    ensures c < 3 ==> r == c + 1
  {
    (c + 1) % 4
  }

  /** `"🤔 Thinking" + ".".repeat(dotCount)`. */
  function StatusText(dots: nat): string {
    Label + Repeat('.', dots)
  }

  /** The dot count after `k` updates of a freshly started animation. */
  function DotsAfter(k: nat): (c: nat)
    ensures c < 4
  {
    if k == 0 then 0 else NextDotCount(DotsAfter(k - 1))
  }

  /** After `k` updates the count is `k mod 4`: it runs 1, 2, 3, 0, 1, ... */
  lemma {:induction false} DotsAfterIsMod(k: nat)
    ensures DotsAfter(k) == k % 4
  {
    if k > 0 {
      DotsAfterIsMod(k - 1);
    }
  }

  /** The first four updates show 1, 2, 3 and then 0 dots. */
  lemma FirstCycle()
    ensures DotsAfter(1) == 1 && DotsAfter(2) == 2 && DotsAfter(3) == 3 && DotsAfter(4) == 0
  {
    DotsAfterIsMod(4);
  }

  /** The status line is the label followed by exactly `dots` dots, and holds no other dot. */
  lemma StatusShowsDots(dots: nat)
    ensures StatusText(dots)[..|Label|] == Label
    ensures |StatusText(dots)| == |Label| + dots
    ensures Count(StatusText(dots), '.') == dots
  {
    LabelHasNoDot();
    RepeatCount('.', dots);
    var t := StatusText(dots);
    assert multiset(t) == multiset(Label) + multiset(Repeat('.', dots));
  }

  lemma LabelHasNoDot()
    ensures multiset(Label)['.'] == 0
  {
    assert '.' !in Label;
  }

  lemma {:induction false} RepeatCount(c: char, n: nat)
    ensures multiset(Repeat(c, n))[c] == n
  {
    if n > 0 {
      RepeatCount(c, n - 1);
      assert Repeat(c, n) == [c] + Repeat(c, n - 1);
    }
  }

  /** The animation: its dot count, whether its interval is running, and the status line. */
  class Animation {
    var dotCount: nat
    var running: bool
    var status: string  // the `statusLabel` element, the one `Turn.Session.status` also writes
    ghost var ticks: nat  // updates since the last start

    ghost predicate Valid()
      reads this
    {
      dotCount == DotsAfter(ticks)
    }

    constructor (status0: string)
      ensures Valid() && !running && status == status0
      ensures dotCount == 0 && ticks == 0
    {
      dotCount := 0;
      running := false;
      status := status0;
      ticks := 0;
    }

    /** `animateThinking`: a fresh count of 0 and a running interval; the status is untouched until the first update. */
    method Start()
      modifies this
      ensures Valid() && running && dotCount == 0 && ticks == 0 && status == old(status)
    {
      dotCount := 0;
      ticks := 0;
      running := true;
    }

    /** One interval callback; it only runs while the interval has not been cleared. */
    method Tick()
      requires Valid()
      modifies this
      ensures Valid()
      ensures old(running) ==> ticks == old(ticks) + 1 && status == StatusText(dotCount)
      ensures !old(running) ==> ticks == old(ticks) && status == old(status) && dotCount == old(dotCount)
      ensures running == old(running)
      ensures dotCount < 4
    {
      if running {
        dotCount := NextDotCount(dotCount);
        ticks := ticks + 1;
        status := StatusText(dotCount);
      }
    }

    /** `stopThinking`: `clearInterval`. */
    method Stop()
      modifies this
      ensures !running && dotCount == old(dotCount) && ticks == old(ticks) && status == old(status)
    {
      running := false;
    }
  }

}
