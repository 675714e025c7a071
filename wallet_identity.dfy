/**
 * The wallet chip in the header (app/components/WalletIdentity.tsx): the two
 * avatar colours cut out of the address with `slice`, the choice between the
 * connect button and the chip, and the menu's open flag.
 */
module WalletIdentity {
  import opened Wrappers
  import opened JsText

  datatype Colors = Colors(color1: string, color2: string)

  /** `generateGradientColors`: `'#' + address.slice(2, 8)` and
      `'#' + address.slice(-6)`. */
  function GradientColors(address: string): Colors {
    Colors("#" + Slice(address, 2, 8), "#" + SliceFrom(address, -6))
  }

  function Min(a: int, b: int): int {
    if a < b then a else b
  }

  function Max(a: int, b: int): int {
    if a < b then b else a
  }

  /** The first colour is the (up to) six characters after `0x`, the second
      the last six, or the whole address when it is shorter. */
  lemma ColorSlices(address: string)
    ensures GradientColors(address).color1 == "#" + address[Min(2, |address|)..Min(8, |address|)]
    ensures GradientColors(address).color2 == "#" + address[Max(0, |address| - 6)..]
  {
  }

  /** A full-length address gives two seven-character colours, each `#`
      followed by six characters of the address. */
  lemma ColorsOfLongAddress(address: string)
    requires |address| >= 8
    ensures var c := GradientColors(address);
      && |c.color1| == 7 && |c.color2| == 7
      && c.color1[0] == '#' && c.color2[0] == '#'
      && c.color1[1..] == address[2..8] && c.color2[1..] == address[|address| - 6..]
  {
    ColorSlices(address);
  }

  /** What the component renders: the connect button, or the chip with its colours. */
  datatype WalletView = ConnectButton | Chip(address: string, colors: Colors)

  function View(isConnected: bool, address: Option<string>): (v: WalletView)
    ensures v == ConnectButton <==> !isConnected || !IsTruthy(address)
    ensures v.Chip? ==> v.address == address.value && v.colors == GradientColors(address.value)
  {
    if !isConnected || !IsTruthy(address) then ConnectButton
    else Chip(address.value, GradientColors(address.value))
  }

  /** The chip's menu; `disconnects` counts the calls to the wallet's `disconnect`. */
  class WalletMenu {
    var showPopup: bool
    ghost var disconnects: nat

    constructor()
      ensures !showPopup && disconnects == 0
    {
      showPopup := false;
      disconnects := 0;
    }

    /** A click on the chip opens or closes the menu. */
    method ChipClicked()
      modifies this
      ensures showPopup == !old(showPopup) && disconnects == old(disconnects)
    {
      showPopup := !showPopup;
    }

    /** A click on the backdrop closes it. */
    method BackdropClicked()
      modifies this
      ensures !showPopup && disconnects == old(disconnects)
    {
      showPopup := false;
    }

    /** "Disconnect Wallet" disconnects once, then closes the menu. */
    method DisconnectClicked()
      modifies this
      ensures !showPopup && disconnects == old(disconnects) + 1
    {
      disconnects := disconnects + 1;
      showPopup := false;
    }
  }
}
