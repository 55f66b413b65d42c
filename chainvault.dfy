/** The crypto-wallet dashboard's own handlers: the quick-percentage and order-type button
    groups, the API-key reveal button, and the choice of the address a copy button copies.
    Its sidebar, trade and settings tabs and transaction search are `Dashboard`'s. */
module ChainVault {
  import opened Text
  import opened Dom

  /** A click on quick-percentage button `k`: it is the only one with `quick-pct--active`. */
  method QuickPctClick(buttons: array<Element>, k: nat)
    requires k < buttons.Length
    modifies buttons
    ensures forall j :: 0 <= j < buttons.Length ==> buttons[j] == WithClass(old(buttons[j]), "quick-pct--active", j == k)
  {
    SelectOnly(buttons, "quick-pct--active", k);
  }

  /** A click on order-type button `k`: it is the only one with `order-type-btn--active`. */
  method OrderTypeClick(buttons: array<Element>, k: nat)
    requires k < buttons.Length
    modifies buttons
    ensures forall j :: 0 <= j < buttons.Length ==> buttons[j] == WithClass(old(buttons[j]), "order-type-btn--active", j == k)
  {
    SelectOnly(buttons, "order-type-btn--active", k);
  }

  /** The two bullets a masked key shows. */
  const Bullets: string := "\U{2022}\U{2022}"

  /** A value read by `getAttribute` counts only when present and not empty. */
  predicate Present(v: Option<string>)
  {
    v.Some? && v.value != ""
  }

  /** The key text after a click on the reveal button: a masked text (one holding two
      bullets) becomes the full key, anything else the masked key. */
  function Revealed(text: string, masked: string, full: string): (r: string)
    ensures r == full || r == masked
    ensures r == full <== Contains(text, Bullets)
    ensures r == masked <== !Contains(text, Bullets)
  {
    if Contains(text, Bullets) then full else masked
  }

  /** Two clicks from the masked key show the full key and then the masked key again,
      whenever the full key has no bullets and the masked key has. */
  lemma {:induction false} RevealTwice(masked: string, full: string)
    requires Contains(masked, Bullets) && !Contains(full, Bullets)
    ensures Revealed(masked, masked, full) == full
    ensures Revealed(Revealed(masked, masked, full), masked, full) == masked
  {
  }

  /** An API-key row: its key text, the key element's `data-masked` and `data-full`, and the
      reveal button's text. */
  class ApiKeyRow {
    /** The row holds a `.api-key-value` element. */
    const hasKey: bool
    const masked: Option<string>
    const full: Option<string>
    var keyText: string
    var buttonText: string

    constructor (hasKey: bool, masked: Option<string>, full: Option<string>, keyText: string, buttonText: string)
      ensures this.hasKey == hasKey && this.masked == masked && this.full == full
      ensures this.keyText == keyText && this.buttonText == buttonText
    {
      this.hasKey := hasKey;
      this.masked := masked;
      this.full := full;
      this.keyText := keyText;
      this.buttonText := buttonText;
    }

    /** A click on the reveal button. Without a key element, or when either attribute is
        missing or empty, nothing changes; otherwise the key text becomes `Revealed`, and
        the button reads "Hide" when the full key is shown and "Reveal" when the masked
        one is. */
    method Click()
      modifies this
      ensures !(hasKey && Present(masked) && Present(full)) ==>
        keyText == old(keyText) && buttonText == old(buttonText)
      ensures hasKey && Present(masked) && Present(full) ==>
        && keyText == Revealed(old(keyText), masked.value, full.value)
        && buttonText == if Contains(old(keyText), Bullets) then "Hide" else "Reveal"
    {
      if !hasKey {
        return;
      }
      if !Present(masked) || !Present(full) {
        return;
      }
      if Contains(keyText, Bullets) {
        keyText := full.value;
        buttonText := "Hide";
      } else {
        keyText := masked.value;
        buttonText := "Reveal";
      }
    }
  }

  /** The address a copy button copies: its `data-address`, else the trimmed text of the
      wallet address next to it (`None` when there is none), else "". */
  function CopiedAddress(dataAddress: Option<string>, walletText: Option<string>): (address: string)
    ensures Present(dataAddress) ==> address == dataAddress.value
    ensures !Present(dataAddress) && walletText.Some? && Trim(walletText.value) != [] ==> address == Trim(walletText.value)
    ensures address == "" <==> !Present(dataAddress) && (walletText.None? || IsBlank(walletText.value))
  {
    if Present(dataAddress) then dataAddress.value
    else if walletText.Some? && Trim(walletText.value) != "" then Trim(walletText.value)
    else ""
  }

  /** A click on a copy button hands this text to the clipboard, or nothing when the
      address is empty. */
  function Copies(dataAddress: Option<string>, walletText: Option<string>): (copied: Option<string>)
    ensures copied.None? <==> CopiedAddress(dataAddress, walletText) == ""
    ensures copied.Some? ==> copied.value == CopiedAddress(dataAddress, walletText) && copied.value != ""
  {
    var address := CopiedAddress(dataAddress, walletText);
    if address == "" then None else Some(address)
  }

  /** A change of a toggle switch mirrors its checked state in `aria-checked` (the boolean
      written as "true" or "false"). */
  function AriaChecked(input: Element, checked: bool): (r: Element)
    ensures Attr(r, "aria-checked") == Some(if checked then "true" else "false")
    ensures forall name :: name != "aria-checked" ==> Attr(r, name) == Attr(input, name)
    ensures r.classes == input.classes && r.display == input.display && r.text == input.text
  {
    input.(attrs := input.attrs["aria-checked" := if checked then "true" else "false"])
  }
}
