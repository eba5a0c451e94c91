/**
 * The host framework's text helpers (redbot's `chat_formatting`). Their
 * behaviour is not part of this model: they are function values the caller
 * supplies, so every property proved below holds whatever they compute.
 */
module ChatFormatting {

  datatype Formatter = Formatter(
    /** `humanize_number`: renders a count with thousands separators. */
    humanizeNumber: int -> string,
    /** `underline` */
    underline: string -> string,
    /** `bold` */
    bold: string -> string,
    /** `box`: wraps text in a code block. */
    box: string -> string,
    /** `info`: prefixes an informational marker. */
    info: string -> string,
    /** `pagify(text, page_length)`: cuts text into pages. */
    pagify: (string, nat) -> seq<string>)
}

/**
 * The permissive date parser (dateutil's `parser.parse`), likewise supplied
 * by the caller: it either rejects the text or yields a date and time.
 */
module DateParsing {
  import opened Common

  /** A parsed instant: the calendar day (as a day number) and the time within it. */
  datatype DateTime = DateTime(day: int, timeOfDay: int) {
    /** `datetime.date()`: the calendar day, the time of day dropped. */
    function Date(): int { day }
  }

  /** `None` stands for `ParserError`. */
  type Parser = string -> Option<DateTime>
}
