/** The per-device checkbox flags and the checkbox's update of them. */
module Visibility {

  /** `visibleDevices[device]` is truthy: a device without a flag counts as hidden. */
  predicate Visible(vis: map<string, bool>, device: string)
  {
    device in vis && vis[device]
  }

  /**
   * The checkbox's functional update: the toggled device's flag becomes the
   * negation of its visibility and every other flag is kept.
   */
  function Toggled(vis: map<string, bool>, device: string): (r: map<string, bool>)
    ensures r.Keys == vis.Keys + {device}
    ensures Visible(r, device) == !Visible(vis, device)
    ensures forall d | d in vis && d != device :: r[d] == vis[d]
  {
    vis[device := !Visible(vis, device)]
  }

  /** Two clicks on the same checkbox restore every device's visibility. */
  lemma ToggleTwice(vis: map<string, bool>, device: string)
    ensures forall d :: Visible(Toggled(Toggled(vis, device), device), d) == Visible(vis, d)
  {
    var once := Toggled(vis, device);
    var twice := Toggled(once, device);
    forall d
      ensures Visible(twice, d) == Visible(vis, d)
    {
      if d != device {
        assert d in twice <==> d in vis;
      }
    }
  }
}
