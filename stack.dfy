/**
 * The simulator's command stack. Every `stack.stack(text)` call of the
 * plugins appends one command to a log; each constructor documents the text
 * it stands for. Numbers keep their value; their decimal rendering is not
 * modelled.
 */
module Stack {
  import PyText

  datatype Cmd =
    | Echo(text: string)                          // "ECHO <text>"
    | EchoResolving(own: string, intr: string, reso: string)
                                                  // "ECHO <own> is resolving conflict with <intr> using <reso>: <description>"
    | EchoMacc(followers: seq<string>, leader: string)
                                                  // "ECHO <f1> & <f2> ... are resolving conflict with <leader> using reso9: ..."
    | Spd(acid: string, spd: real)                // "SPD <acid> <spd>"
    | Alt(acid: string, alt: real)                // "ALT <acid> <alt>"
    | LnavOn(acid: string)                        // "<acid> LNAV ON"
    | VnavOn(acid: string)                        // "<acid> VNAV ON"
    | AtAltLnavOn(acid: string, alt: real)        // "ATALT <acid> <alt> LNAV <acid> ON"
    | AtAltVnavOn(acid: string, alt: real)        // "ATALT <acid> <alt> VNAV <acid> ON"
    | AtSpdLnavOn(acid: string, spd: real)        // "ATSPD <acid> <spd> LNAV <acid> ON"
    | AtSpdVnavOn(acid: string, spd: real)        // "ATSPD <acid> <spd> VNAV <acid> ON"
    | RerouteOvershoot(acid: string)              // "REROUTEOVERSHOOT <acid>"
    | RerouteGeofence(acid: string)               // "REROUTEGEOFENCE <acid>"
    | AtDistSpd(acid: string, lat: real, lon: real, dist: real, spd: real)
                                                  // "ATDIST <acid> <lat> <lon> <dist> SPD <acid> <spd>"
    | AtDistAtSpdAlt(acid: string, lat: real, lon: real, dist: real, spd: real, alt: real)
                                                  // "ATDIST <acid> <lat> <lon> <dist> ATSPD <acid> <spd> ALT <acid> <alt>"
    | AtAltDel(acid: string, alt: real)           // "ATALT <acid> <alt> DEL <acid>"
    | DelWpt(acid: string, wpname: string)        // "DELWPT <acid> <wpname>"
    | Del(acid: string)                           // "<acid> DEL"
    | DelRte(acid: string)                        // "DELRTE <acid>"
    | AddWptAtAlt(acid: string, alt: real, lat: real, lon: real, wpalt: real, spd: real)
                                                  // "<acid> ATALT <alt> ADDWPT <acid> <lat> <lon> <wpalt> <spd>"
    | SpdAtAlt(acid: string, alt: real, spd: real) // "<acid> ATALT <alt> SPD <acid> <spd>"
    | Direct(acid: string, wpname: string)        // not a stack command: the route's direct(wpname) call
  {
    /** The text an ECHO command shows; the resolution messages are kept structured and rendered here. */
    function EchoText(): string
      requires Echo? || EchoResolving? || EchoMacc?
    {
      match this
      case Echo(text) => text
      case EchoResolving(own, intr, reso) =>
        own + " is resolving conflict with " + intr + " using " + reso + ": " + ResoDescription(reso)
      case EchoMacc(followers, leader) =>
        PyText.JoinWith(followers, " & ") + " are resolving conflict with " + leader
        + " using reso9: multi aircraft conflict"
    }
  }

  /** The description the resolution ECHO gives of each strategy. */
  function ResoDescription(reso: string): string
  {
    if reso == "reso1" then "climb into resolution layer strategy"
    else if reso == "reso2" then "speed strategy"
    else if reso == "reso3" then "hover in the resolution layer strategy"
    else if reso == "reso5" then "climb into resolution layer + speed resolution strategy"
    else if reso == "reso6" then "climb into resolution layer + hover resolution strategy"
    else if reso == "reso7" then "descend into resolution layer + hover resolution strategy"
    else if reso == "reso8" then "velocity matching in the vertical direction"
    else ""
  }

  /** Commands stacked one block after another read the same as the blocks stacked together. */
  lemma StackedInBlocks(log: seq<Cmd>, first: seq<Cmd>, second: seq<Cmd>)
    ensures log + first + second == log + (first + second)
  {
  }

  /** The global command stack: commands are only ever appended. */
  class CommandStack {
    var cmds: seq<Cmd>

    constructor ()
      ensures cmds == []
    {
      cmds := [];
    }

    method Push(c: Cmd)
      modifies this
      ensures cmds == old(cmds) + [c]
    {
      cmds := cmds + [c];
    }

    /** One `stack.stack` call per command, in order. */
    method PushAll(cs: seq<Cmd>)
      modifies this
      ensures cmds == old(cmds) + cs
    {
      var k := 0;
      while k < |cs|
        invariant 0 <= k <= |cs|
        invariant cmds == old(cmds) + cs[..k]
      {
        Push(cs[k]);
        k := k + 1;
      }
      assert cs[..k] == cs;
    }
  }
}
