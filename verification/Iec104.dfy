/** Type identifications and causes of transmission of IEC 60870-5-101 as the slave uses them. */
module Iec104 {
  const M_ME_NA_1 := 9
  const M_ME_NB_1 := 11
  const M_ME_NC_1 := 13
  const C_SC_NA_1 := 45
  const C_DC_NA_1 := 46
  const C_SE_NA_1 := 48
  const C_SE_NB_1 := 49
  const C_SE_NC_1 := 50

  const COT_ACTIVATION := 6
  const COT_ACTIVATION_CON := 7
  const COT_DEACTIVATION := 8
  const COT_ACTIVATION_TERMINATION := 10
}
