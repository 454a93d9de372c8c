/** The codes and buffer sizes of the C library's header. */
module Header {
  import opened Raw

  const LED_COLOR_NONE: u8 := 0
  const LED_COLOR_RED: u8 := 1
  const LED_COLOR_GREEN: u8 := 2
  const LED_COLOR_AMBER: u8 := 3
  const LED_COLOR_BLUE: u8 := 4
  const LED_COLOR_MAGENTA: u8 := 5
  const LED_COLOR_CYAN: u8 := 6
  const LED_COLOR_WHITE: u8 := 7

  const LED_TEMPORARY_CC_NOP: u8 := 0
  const LED_TEMPORARY_CC_CANCEL: u8 := 1
  const LED_TEMPORARY_CC_SET: u8 := 2

  const LED_PERMANENT_CC_NOP: u8 := 0
  const LED_PERMANENT_CC_SET: u8 := 1

  const BUZZER_CC_NO_TONE: u8 := 0
  const BUZZER_CC_OFF: u8 := 1
  const BUZZER_CC_DEFAULT_TONE: u8 := 2

  const TEXT_CC_PERMANENT_NO_WRAP: u8 := 1
  const TEXT_CC_PERMANENT_WRAP: u8 := 2
  const TEXT_CC_TEMPORARY_NO_WRAP: u8 := 3
  const TEXT_CC_TEMPORARY_WRAP: u8 := 4

  const OUTPUT_CC_NOP: u8 := 0
  const OUTPUT_CC_PERMANENT_OFF: u8 := 1
  const OUTPUT_CC_PERMANENT_ON: u8 := 2
  const OUTPUT_CC_PERMANENT_OFF_ALLOW_TIMED: u8 := 3
  const OUTPUT_CC_PERMANENT_ON_ALLOW_TIMED: u8 := 4
  const OUTPUT_CC_TEMPORARY_ON: u8 := 5
  const OUTPUT_CC_TEMPORARY_OFF: u8 := 6

  const STATUS_REPORT_INPUT: u8 := 0
  const STATUS_REPORT_OUTPUT: u8 := 1
  const STATUS_REPORT_LOCAL: u8 := 2
  const STATUS_REPORT_READER: u8 := 3

  const TRS_PIN_FORMAT_BINARY: u8 := 1
  const TRS_PIN_FORMAT_BCD: u8 := 2
  const TRS_PIN_FORMAT_ASCII: u8 := 3

  const TRS_CARD_PROTOCOL_CONTACT: u8 := 1
  const TRS_CARD_PROTOCOL_CONTACTLESS: u8 := 2

  const TRS_CARD_STATUS_UNKNOWN: u8 := 0
  const TRS_CARD_NOT_PRESENT: u8 := 1
  const TRS_CARD_PRESENT: u8 := 2
  const TRS_CARD_PRESENT_CONTACTLESS: u8 := 3
  const TRS_CARD_PRESENT_CONTACT: u8 := 4

  const CARD_FMT_RAW_UNSPECIFIED: u8 := 0
  const CARD_FMT_RAW_WIEGAND: u8 := 1

  const PD_CAP_UNUSED := 0
  const PD_CAP_SENTINEL := 17

  const CMD_TEXT_MAX_LEN := 32
  const CMD_KEYSET_KEY_MAX_LEN := 32
  const CMD_MFG_MAX_DATALEN := 64
  const CMD_BIOMATCH_MAX_TEMPLATE_LEN := 128
  const PIV_DATA_MAX_LEN := 256
  const TRS_APDU_MAX_LEN := 258
  const TRS_CSN_MAX_LEN := 32
  const TRS_PROTOCOL_DATA_MAX_LEN := 64
  const STATUS_REPORT_MAX_LEN := 64
  const EVENT_CARDREAD_MAX_DATALEN := 64
  const EVENT_KEYPRESS_MAX_DATALEN := 64
  const EVENT_MFGREP_MAX_DATALEN := 128
  const EVENT_BIOREADR_MAX_TEMPLATE_LEN := 256
}
