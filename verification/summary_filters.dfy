/**
 * The annotation filters the summary decode mode passes to `sigrok-cli -A`:
 * a fixed table from decoder name to filter text. An entry is either the
 * bare decoder name (every annotation of that decoder) or the name, `=`,
 * and the `:`-separated annotation classes to keep. The table is written
 * here in the groups its source lists it in; no decoder is in two groups.
 */
module SummaryFilters {
  import opened Wrappers
  import opened PyText

  /** The filter text `decoder=class:class:...`. */
  function Classes(decoder: string, classes: string): (f: string)
    ensures StartsWith(f, decoder + "=")
  {
    ConcatEnds(decoder + "=", classes);
    decoder + "=" + classes
  }

  /** A filter that selects annotations of `decoder` only. */
  predicate Selects(filter: string, decoder: string) {
    filter == decoder || StartsWith(filter, decoder + "=")
  }

  /** `get_summary_annotation_filter`: the entry of
      `_SUMMARY_ANNOTATION_FILTERS` for a decoder, or `None` for a decoder
      the table does not list. Every entry selects annotations of its own
      decoder. */
  function GetSummaryAnnotationFilter(decoder: string): (r: Option<string>)
    ensures r.Some? ==> Selects(r.value, decoder)
  {
    if ExampleFilters(decoder).Some? then ExampleFilters(decoder) else
    if BusFilters(decoder).Some? then BusFilters(decoder) else
    if MemoryFilters(decoder).Some? then MemoryFilters(decoder) else
    if SensorFilters(decoder).Some? then SensorFilters(decoder) else
    if DisplayFilters(decoder).Some? then DisplayFilters(decoder) else
    if RadioFilters(decoder).Some? then RadioFilters(decoder) else
    if DebugFilters(decoder).Some? then DebugFilters(decoder) else
    if UsbFilters(decoder).Some? then UsbFilters(decoder) else
    if UtilityFilters(decoder).Some? then UtilityFilters(decoder) else
    if MiscFilters(decoder).Some? then MiscFilters(decoder) else
    None
  }

  /** The entries tried on example captures. */
  function ExampleFilters(decoder: string): (r: Option<string>)
    ensures r.Some? ==> Selects(r.value, decoder)
  {
    match decoder
    case "i2c" => Some(Classes("i2c", "start:repeat-start:stop:ack:nack:address-read:address-write:data-read:data-write"))
    case "spi" => Some(Classes("spi", "mosi-data:miso-data:mosi-transfer:miso-transfer"))
    case "uart" => Some(Classes("uart", "rx-data:tx-data"))
    case "can" => Some(Classes("can", "sof:eof:id:ext-id:full-id:ide:rtr:dlc:data:warnings"))
    case "onewire_network" => Some("onewire_network")
    case "mdio" => Some(Classes("mdio", "decode"))
    case "usb_packet" => Some("usb_packet")
    case "dcf77" => Some(Classes("dcf77", "minute:hour:day:day-of-week:month:year"))
    case "am230x" => Some(Classes("am230x", "humidity:temperature:checksum"))
    case "avr_isp" => Some("avr_isp")
    case "spiflash" => Some("spiflash")
    case "sdcard_sd" => Some(Classes("sdcard_sd", "cmd0:cmd2:cmd3:cmd6:cmd7:cmd8:cmd9:cmd10:cmd11:cmd12:cmd13:cmd16:cmd17:cmd18:cmd23:cmd24:cmd25:cmd41:cmd55:decoded-fields"))
    case "z80" => Some(Classes("z80", "memrd:memwr:iord:iowr:instr"))
    case "arm_itm" => Some("arm_itm")
    case _ => None
  }

  /** Communication buses. */
  function BusFilters(decoder: string): (r: Option<string>)
    ensures r.Some? ==> Selects(r.value, decoder)
  {
    match decoder
    case "ac97" => Some("ac97")
    case "flexray" => Some("flexray")
    case "gpib" => Some("gpib")
    case "i2s" => Some("i2s")
    case "ieee488" => Some("ieee488")
    case "lin" => Some("lin")
    case "modbus" => Some("modbus")
    case "dali" => Some("dali")
    case "dmx512" => Some("dmx512")
    case "midi" => Some("midi")
    case "spdif" => Some("spdif")
    case "dsi" => Some("dsi")
    case "cec" => Some("cec")
    case "lpc" => Some("lpc")
    case "microwire" => Some("microwire")
    case "ps2" => Some("ps2")
    case "ssi32" => Some("ssi32")
    case "swim" => Some("swim")
    case "wiegand" => Some("wiegand")
    case "parallel" => Some("parallel")
    case "tdm_audio" => Some("tdm_audio")
    case "iec" => Some("iec")
    case _ => None
  }

  /** Memory and storage. */
  function MemoryFilters(decoder: string): (r: Option<string>)
    ensures r.Some? ==> Selects(r.value, decoder)
  {
    match decoder
    case "eeprom24xx" => Some("eeprom24xx")
    case "eeprom93xx" => Some("eeprom93xx")
    case "x2444m" => Some("x2444m")
    case "sda2506" => Some("sda2506")
    case "sdcard_spi" => Some("sdcard_spi")
    case _ => None
  }

  /** Sensors. */
  function SensorFilters(decoder: string): (r: Option<string>)
    ensures r.Some? ==> Selects(r.value, decoder)
  {
    match decoder
    case "lm75" => Some("lm75")
    case "mlx90614" => Some("mlx90614")
    case "mxc6225xu" => Some("mxc6225xu")
    case "ds1307" => Some("ds1307")
    case "ds2408" => Some("ds2408")
    case "ds243x" => Some("ds243x")
    case "ds28ea00" => Some("ds28ea00")
    case "rtc8564" => Some("rtc8564")
    case "atsha204a" => Some("atsha204a")
    case "pca9571" => Some("pca9571")
    case "tca6408a" => Some("tca6408a")
    case _ => None
  }

  /** Displays and LEDs. */
  function DisplayFilters(decoder: string): (r: Option<string>)
    ensures r.Some? ==> Selects(r.value, decoder)
  {
    match decoder
    case "max7219" => Some("max7219")
    case "seven_segment" => Some("seven_segment")
    case "rgb_led_spi" => Some("rgb_led_spi")
    case "rgb_led_ws281x" => Some("rgb_led_ws281x")
    case "st7735" => Some("st7735")
    case "tlc5620" => Some("tlc5620")
    case _ => None
  }

  /** Radio and wireless. */
  function RadioFilters(decoder: string): (r: Option<string>)
    ensures r.Some? ==> Selects(r.value, decoder)
  {
    match decoder
    case "cc1101" => Some("cc1101")
    case "nrf24l01" => Some("nrf24l01")
    case "rfm12" => Some("rfm12")
    case "em4100" => Some("em4100")
    case "em4305" => Some("em4305")
    case "t55xx" => Some("t55xx")
    case "ir_nec" => Some("ir_nec")
    case "ir_rc5" => Some("ir_rc5")
    case "ir_rc6" => Some("ir_rc6")
    case "ook" => Some("ook")
    case "ook_oregon" => Some("ook_oregon")
    case "ook_vis" => Some("ook_vis")
    case "qi" => Some("qi")
    case "mrf24j40" => Some("mrf24j40")
    case _ => None
  }

  /** Debug interfaces. */
  function DebugFilters(decoder: string): (r: Option<string>)
    ensures r.Some? ==> Selects(r.value, decoder)
  {
    match decoder
    case "swd" => Some("swd")
    case "jtag" => Some("jtag")
    case "jtag_ejtag" => Some("jtag_ejtag")
    case "jtag_stm32" => Some("jtag_stm32")
    case "arm_etmv3" => Some("arm_etmv3")
    case "arm_tpiu" => Some("arm_tpiu")
    case "avr_pdi" => Some("avr_pdi")
    case "mcs48" => Some("mcs48")
    case _ => None
  }

  /** USB. */
  function UsbFilters(decoder: string): (r: Option<string>)
    ensures r.Some? ==> Selects(r.value, decoder)
  {
    match decoder
    case "usb_signalling" => Some("usb_signalling")
    case "usb_power_delivery" => Some("usb_power_delivery")
    case "usb_request" => Some("usb_request")
    case _ => None
  }

  /** Timing and utility decoders. */
  function UtilityFilters(decoder: string): (r: Option<string>)
    ensures r.Some? ==> Selects(r.value, decoder)
  {
    match decoder
    case "counter" => Some("counter")
    case "timing" => Some("timing")
    case "jitter" => Some("jitter")
    case "guess_bitrate" => Some("guess_bitrate")
    case "pwm" => Some("pwm")
    case "miller" => Some("miller")
    case "morse" => Some("morse")
    case "graycode" => Some("graycode")
    case "rc_encode" => Some("rc_encode")
    case "stepper_motor" => Some("stepper_motor")
    case _ => None
  }

  /** Everything else. */
  function MiscFilters(decoder: string): (r: Option<string>)
    ensures r.Some? ==> Selects(r.value, decoder)
  {
    match decoder
    case "cfp" => Some("cfp")
    case "xfp" => Some("xfp")
    case "edid" => Some("edid")
    case "hdcp" => Some("hdcp")
    case "maple_bus" => Some("maple_bus")
    case "nes_gamepad" => Some("nes_gamepad")
    case "nunchuk" => Some("nunchuk")
    case "pan1321" => Some("pan1321")
    case "amulet_ascii" => Some("amulet_ascii")
    case "ade77xx" => Some("ade77xx")
    case "adf435x" => Some("adf435x")
    case "adns5020" => Some("adns5020")
    case "aud" => Some("aud")
    case "enc28j60" => Some("enc28j60")
    case "onewire_link" => Some("onewire_link")
    case "i2cdemux" => Some("i2cdemux")
    case "i2cfilter" => Some("i2cfilter")
    case _ => None
  }

  /** The decoders with their own transaction formatter keep their byte and
      boundary annotations. */
  lemma TransactionDecoderFilters()
    ensures GetSummaryAnnotationFilter("i2c")
            == Some(Classes("i2c", "start:repeat-start:stop:ack:nack:address-read:address-write:data-read:data-write"))
    ensures GetSummaryAnnotationFilter("spi") == Some(Classes("spi", "mosi-data:miso-data:mosi-transfer:miso-transfer"))
    ensures GetSummaryAnnotationFilter("uart") == Some(Classes("uart", "rx-data:tx-data"))
  {
  }
}
