/**
 The operating system's side of `launch_browser` and of a browser handle's `shutdown`:
 an append-only table of processes. A handle is an index into it.
 */
module BrowserHosts {
  import opened Domain

  class BrowserHost {
    var processes: Browsers

    constructor ()
      ensures processes == []
    {
      processes := [];
    }

    method Launch(endpoint: string, flags: Flags, owner: Party) returns (id: BrowserId)
      modifies this
      ensures id == |old(processes)|
      ensures processes == old(processes) + [Browser(endpoint, flags, owner, [])]
    {
      id := |processes|;
      processes := processes + [Browser(endpoint, flags, owner, [])];
    }

    method Shutdown(id: BrowserId, party: Party)
      modifies this
      ensures processes == Shut(old(processes), id, party)
    {
      processes := Shut(processes, id, party);
    }
  }
}
