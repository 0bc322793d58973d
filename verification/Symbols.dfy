module Symbols {

  /** A ticker symbol, already in upper case. */
  datatype Symbol = Ticker(name: string)
}
