/** Objects of the plugin that outlive a connection: the prompt's latch and the cached op-sign key. */
module PluginState {
  import opened Prelude

  /** Ipc/UvFallbackPrompt.cs: a decision, once taken, is kept; an exception decides nothing. */
  class UvFallbackPrompt {
    var decided: bool
    var decision: bool

    constructor ()
      ensures !decided && !decision
    {
      decided, decision := false, false;
    }

    method ShouldProceed(ask: Option<bool>) returns (r: Option<bool>)
      modifies this
      ensures r == if old(decided) then Some(old(decision)) else ask
      ensures decided == r.Some? && decision == if r.Some? then r.value else old(decision)
    {
      if decided {
        return Some(decision);
      }
      if ask.None? {
        return None;
      }
      decision := ask.value;
      decided := true;
      return Some(decision);
    }
  }

  /** Crypto/OpSignPubKeyCache.cs: whatever was set last. */
  class OpSignPubKeyCache {
    var current: Option<bytes>

    constructor ()
      ensures current == None
    {
      current := None;
    }

    method Set(pubKeyBlob: bytes)
      modifies this
      ensures current == Some(pubKeyBlob)
    {
      current := Some(pubKeyBlob);
    }
  }
}
