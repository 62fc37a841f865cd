/** Types several services share. */
module CommonTypes {
  type Month = int
  type Instant = int   // milliseconds since the epoch

  datatype Provider = Airwallex | Photonpay
  datatype CommonStatus = Draft | Confirmed | Locked | Active | Disabled
  datatype SettlementStatus = Draft | Confirmed | Locked
}
