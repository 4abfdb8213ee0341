/**
 * The three status-to-label mappings with which the bot reports a gateway
 * lookup (main.py): BappaVenture payout, BappaVenture payin and Wellness
 * payin. Each compares the raw `status` value with three literal strings,
 * exactly and case-sensitively, and falls back to "Unknown".
 */
module StatusLabels {

  /** The label shown to the operator. */
  datatype Label = Success | Failed | Pending | Unknown

  /**
   * The `status` value read out of a decoded JSON response: absent (Python
   * `None`), a string, or some other JSON value (a number, a boolean, an
   * object), which never equals a string.
   */
  datatype RawStatus = Missing | Text(text: string) | NonText

  /** The three gateway vocabularies. */
  datatype Vocabulary = BappaPayout | BappaPayin | WellnessPayin

  /** The token each vocabulary uses for a label; `Unknown` has none. */
  function Token(v: Vocabulary, l: Label): (t: string)
    requires l != Unknown
  {
    match v
    case BappaPayout => (match l case Success => "1" case Failed => "3" case Pending => "0")
    case BappaPayin => (match l case Success => "success" case Failed => "failed" case Pending => "pending")
    case WellnessPayin => (match l case Success => "Success" case Failed => "Failed" case Pending => "Pending")
  }

  /** BappaVenture payout lookup: "1" success, "3" failed, "0" pending. */
  function PayoutLabel(status: RawStatus): (l: Label)
  {
    if status == Text("1") then Success
    else if status == Text("3") then Failed
    else if status == Text("0") then Pending
    else Unknown
  }

  /** BappaVenture payin lookup: lower-case "success", "failed", "pending". */
  function BappaPayinLabel(status: RawStatus): (l: Label)
  {
    if status == Text("success") then Success
    else if status == Text("failed") then Failed
    else if status == Text("pending") then Pending
    else Unknown
  }

  /** Wellness payin lookup: capitalised "Success", "Failed", "Pending". */
  function WellnessPayinLabel(status: RawStatus): (l: Label)
  {
    if status == Text("Success") then Success
    else if status == Text("Failed") then Failed
    else if status == Text("Pending") then Pending
    else Unknown
  }

  function LabelFor(v: Vocabulary, status: RawStatus): Label
  {
    match v
    case BappaPayout => PayoutLabel(status)
    case BappaPayin => BappaPayinLabel(status)
    case WellnessPayin => WellnessPayinLabel(status)
  }

  /**
   * Each mapping is decided by exact match: a status gets a non-Unknown label
   * exactly when it is the vocabulary's token for that label.
   */
  lemma LabelIsExactMatch(v: Vocabulary, status: RawStatus, l: Label)
    requires l != Unknown
    ensures LabelFor(v, status) == l <==> status == Text(Token(v, l))
  {
  }

  /** Reading back the token of a label gives that label: the mappings invert `Token`. */
  lemma TokenRoundTrip(v: Vocabulary, l: Label)
    requires l != Unknown
    ensures LabelFor(v, Text(Token(v, l))) == l
  {
  }

  /** A missing or non-string status is always reported as Unknown. */
  lemma NonTextIsUnknown(v: Vocabulary, status: RawStatus)
    requires !status.Text?
    ensures LabelFor(v, status) == Unknown
  {
  }

  /**
   * The match is case-sensitive: the token of one BappaVenture payin label,
   * capitalised, is the Wellness token and is Unknown to the BappaVenture
   * mapping, and the other way round; the numeric payout tokens and the
   * word tokens of either payin mapping are Unknown to each other.
   */
  lemma VocabulariesDoNotMix(l: Label)
    requires l != Unknown
    ensures BappaPayinLabel(Text(Token(WellnessPayin, l))) == Unknown
    ensures WellnessPayinLabel(Text(Token(BappaPayin, l))) == Unknown
    ensures BappaPayinLabel(Text(Token(BappaPayout, l))) == Unknown
    ensures PayoutLabel(Text(Token(WellnessPayin, l))) == Unknown
    ensures PayoutLabel(Text(Token(BappaPayin, l))) == Unknown
    ensures WellnessPayinLabel(Text(Token(BappaPayout, l))) == Unknown
  {
  }
}
