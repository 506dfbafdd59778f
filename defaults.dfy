/**
 * NTagDefault: the default tag conditions NTagEventInfo starts with.
 * Times are in ns.
 */
module NTagDefault {
  const N10TH: int := 7
  const N10MX: int := 50
  const N200MX: int := 200
  const T0TH: real := 5.0
  const T0MX: real := 535.0
  const VTXSRCRANGE: real := 4000.0
  const TMATCHWINDOW: real := 40.0
  const TMINPEAKSEP: real := 50.0
  const ODHITMX: int := 16
}
