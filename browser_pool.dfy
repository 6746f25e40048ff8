// The lazily (re)launched browser of ncc-8-0.js:27-102: one module-level
// handle, `currentBrowser`, that `getCurrentBrowser` reuses while it is
// connected and otherwise replaces with a freshly launched browser whose
// initial tabs it closes.
module BrowserPool {

  /** A browser tab. */
  class Page {
    var closed: bool

    constructor ()
      ensures !closed
    {
      closed := false;
    }

    /** `page.close()`. */
    method Close()
      modifies this
      ensures closed
    {
      closed := true;
    }
  }

  /** A launched browser: whether it is still connected, and its tabs. */
  class Browser {
    var connected: bool
    var pages: seq<Page>

    /** `launch(...)`: a connected browser that starts with `initialPages` open tabs. */
    constructor Launch(initialPages: nat)
      ensures connected
      ensures |pages| == initialPages
      ensures forall p :: p in pages ==> fresh(p) && !p.closed
    {
      var tabs: seq<Page> := [];
      var i := 0;
      while i < initialPages
        invariant 0 <= i <= initialPages && |tabs| == i
        invariant forall p :: p in tabs ==> fresh(p) && !p.closed
      {
        var p := new Page();
        tabs := tabs + [p];
        i := i + 1;
      }
      connected := true;
      pages := tabs;
    }

    /** `pages.forEach((page) => page.close())`: every tab the browser has is closed. */
    method CloseAllPages()
      modifies set p | p in pages
      ensures forall p :: p in pages ==> p.closed
    {
      var i := 0;
      while i < |pages|
        invariant 0 <= i <= |pages|
        invariant forall k :: 0 <= k < i ==> pages[k].closed
      {
        pages[i].Close();
        i := i + 1;
      }
    }

    /** The browser process goes away; `isConnected()` is false from then on. */
    method Disconnect()
      modifies this
      ensures !connected && pages == old(pages)
    {
      connected := false;
    }
  }

  /** The module-level `currentBrowser` handle. */
  class Pool {
    var current: Browser?

    /** Before the first request the handle is undefined. */
    constructor ()
      ensures current == null
    {
      current := null;
    }

    /**
     * `getCurrentBrowser`. A set and connected handle is returned as it
     * is; otherwise a browser is launched, becomes the handle, and all of
     * its initial tabs are closed.
     */
    method GetCurrentBrowser(initialPages: nat) returns (b: Browser)
      modifies this
      ensures current == b && b.connected
      ensures old(current) != null && old(current.connected) ==> b == old(current)
      ensures old(current) == null || !old(current.connected) ==>
                fresh(b) && |b.pages| == initialPages && forall p :: p in b.pages ==> p.closed
    {
      if current == null || !current.connected {
        b := new Browser.Launch(initialPages);
        b.CloseAllPages();
        current := b;
      } else {
        b := current;
      }
    }

    /**
     * The 'close' listener registered on every launched browser: it clears
     * the handle whichever browser fired it, even one the handle no longer
     * names.
     */
    method OnClose(fired: Browser)
      modifies this
      ensures current == null
    {
      current := null;
    }
  }

  /**
   * A request after another reuses its browser; after the browser's
   * 'close' event the next request launches a new one.
   */
  method ReuseThenRelaunch() returns (reused: bool, relaunched: bool)
    ensures reused && relaunched
  {
    var pool := new Pool();
    var first := pool.GetCurrentBrowser(1);
    var second := pool.GetCurrentBrowser(1);
    reused := first == second;
    first.Disconnect();
    pool.OnClose(first);
    var third := pool.GetCurrentBrowser(1);
    relaunched := third != first;
  }

  /**
   * A disconnected browser is replaced even before its 'close' event, and
   * a late 'close' from it then clears the handle to its replacement, so
   * the request after that launches a third browser.
   */
  method LateCloseDropsReplacement() returns (replaced: bool, dropped: bool)
    ensures replaced && dropped
  {
    var pool := new Pool();
    var first := pool.GetCurrentBrowser(1);
    first.Disconnect();
    var second := pool.GetCurrentBrowser(1);
    replaced := second != first;
    pool.OnClose(first);
    var third := pool.GetCurrentBrowser(1);
    dropped := third != second && second.connected;
  }
}
