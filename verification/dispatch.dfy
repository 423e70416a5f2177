/**
 * `format_decoded_summary`: a fixed table maps `i2c`, `spi` and `uart` to
 * their transaction formatters and every other protocol falls back to the
 * capped line listing. The table's `uart` entry is called with the keyword
 * `max_transactions`, which `format_uart_transactions` does not accept, so
 * that call raises `TypeError` before any formatting happens.
 */
module Dispatch {
  import opened Wrappers
  import opened PyText
  import opened Annotations
  import opened GenericFormatters
  import I2C
  import SPI
  import UART

  /** The entries of `_TRANSACTION_FORMATTERS`. */
  datatype Formatter = I2CFormatter | SPIFormatter | UARTFormatter

  const TransactionFormatters: map<string, Formatter> :=
    map["i2c" := I2CFormatter, "spi" := SPIFormatter, "uart" := UARTFormatter]

  /** What a table entry yields when called with `max_transactions=`. */
  function CallFormatter(f: Formatter, raw: string, maxTransactions: int): (r: Result<string, PyError>)
    ensures r == Err(TypeError) <==> f == UARTFormatter
  {
    match f
    case I2CFormatter => Ok(I2C.Report(TokensOf(Lines(raw)), maxTransactions))
    case SPIFormatter => SPI.Report(TokensOf(Lines(raw)), maxTransactions)
    case UARTFormatter => Err(TypeError)
  }

  /** The summary for one protocol name: its table entry, otherwise the
      generic listing capped at `max_transactions` lines. */
  function DecodedSummary(raw: string, protocol: string, maxTransactions: int): (r: Result<string, PyError>)
    ensures r == Err(TypeError) <==> protocol == "uart"
    ensures protocol != "i2c" && protocol != "spi" && protocol != "uart" ==>
              r == Ok(FormatDecodedProtocol(raw, maxTransactions))
  {
    if protocol in TransactionFormatters then CallFormatter(TransactionFormatters[protocol], raw, maxTransactions)
    else Ok(FormatDecodedProtocol(raw, maxTransactions))
  }

  /** `format_decoded_summary`, calling the formatter the table names. */
  method FormatDecodedSummary(raw: string, protocol: string, maxTransactions: int) returns (r: Result<string, PyError>)
    ensures r == DecodedSummary(raw, protocol, maxTransactions)
  {
    if protocol in TransactionFormatters {
      match TransactionFormatters[protocol]
      case I2CFormatter =>
        var s := I2C.FormatI2CTransactions(raw, maxTransactions);
        r := Ok(s);
      case SPIFormatter =>
        r := SPI.FormatSPITransactions(raw, maxTransactions);
      case UARTFormatter =>
        r := Err(TypeError);
    } else {
      r := Ok(FormatDecodedProtocol(raw, maxTransactions));
    }
  }

  /** The protocols with their own formatter are exactly the three listed. */
  lemma TableKeys()
    ensures TransactionFormatters.Keys == {"i2c", "spi", "uart"}
  {
  }

  /** I2C never fails; SPI fails exactly on a `MISO data` token without a
      value; the fallback never fails and reports the empty capture. */
  lemma SummaryOutcomes(raw: string, protocol: string, maxTransactions: int)
    ensures protocol == "i2c" ==> DecodedSummary(raw, protocol, maxTransactions).Ok?
    ensures protocol == "spi" ==>
              (DecodedSummary(raw, protocol, maxTransactions).Err?
               <==> exists i :: 0 <= i < |TokensOf(Lines(raw))| && SPI.Classify(TokensOf(Lines(raw))[i]) == SPI.Malformed)
    ensures protocol !in TransactionFormatters ==>
              (DecodedSummary(raw, protocol, maxTransactions) == Ok(NoProtocolData) <==> Lines(raw) == [])
  {
    if protocol == "spi" {
      SpiOutcome(raw, protocol, maxTransactions);
    } else if protocol !in TransactionFormatters {
      FallbackOutcome(raw, protocol, maxTransactions);
    }
  }

  lemma SpiOutcome(raw: string, protocol: string, maxTransactions: int)
    requires protocol == "spi"
    ensures DecodedSummary(raw, protocol, maxTransactions).Err?
            <==> exists i :: 0 <= i < |TokensOf(Lines(raw))| && SPI.Classify(TokensOf(Lines(raw))[i]) == SPI.Malformed
  {
    assert TransactionFormatters[protocol] == SPIFormatter;
    assert DecodedSummary(raw, protocol, maxTransactions) == SPI.Report(TokensOf(Lines(raw)), maxTransactions);
    SPI.ReportFails(TokensOf(Lines(raw)), maxTransactions);
  }

  lemma FallbackOutcome(raw: string, protocol: string, maxTransactions: int)
    requires protocol !in TransactionFormatters
    ensures DecodedSummary(raw, protocol, maxTransactions) == Ok(NoProtocolData) <==> Lines(raw) == []
  {
    assert DecodedSummary(raw, protocol, maxTransactions) == Ok(FormatDecodedProtocol(raw, maxTransactions));
  }
}
