/**
 * The messages the bot sends. Each kind is a constructor; `Text` gives the exact
 * Markdown text handed to `tg_send_text`.
 */
module Messages {
  import opened Text

  datatype Message =
    | MenuHelp                                   // `/menu`
    | Pong                                       // `/ping`
    | Schedule(tz: string, schedules: seq<string>, msisdns: seq<string>)   // `/jadwal`
    | CheckAllNotice                             // `/cek_all`, before the loop
    | InvalidNumber(msisdn: string)              // a configured number failing `valid_msisdn`
    | CekUsage                                   // `/cek` without an argument
    | CekInvalid                                 // `/cek` with an invalid argument
    | CekProgress(msisdn: string)                // `/cek`, before the check
    | QuotaReport(report: string)                // the output of `fmt_result`
    | Unrecognized                               // no command prefix matched

  /** Each schedule in backquotes. */
  function Backquoted(xs: seq<string>): (r: seq<string>)
    ensures |r| == |xs|
    ensures forall i :: 0 <= i < |xs| ==> r[i] == "`" + xs[i] + "`"
  {
    if xs == [] then [] else ["`" + xs[0] + "`"] + Backquoted(xs[1..])
  }

  /** The exact text of each message. */
  function MessageText(m: Message): string {
    match m
    case MenuHelp =>
      "\U{1F4CB} *Menu*\n"
      + "/menu \U{2013} daftar perintah\n"
      + "/cek `<msisdn>` \U{2013} cek satu nomor\n"
      + "/cek_all \U{2013} cek semua nomor di konfigurasi\n"
      + "/jadwal \U{2013} lihat jadwal cron (5\U{D7}/hari)\n"
      + "/ping \U{2013} respons cepat\n"
    case Pong => "pong \U{2705}"
    case Schedule(tz, schedules, msisdns) =>
      "\U{1F552} *Jadwal Cek (5\U{D7}/hari)*\n" + "TZ: `" + tz + "`\n"
      + Join(Backquoted(schedules), '\n') + "\n\n"
      + "MSISDN:\n```\n" + Join(msisdns, '\n') + "\n```"
    case CheckAllNotice => "Oke, cek semua nomor\U{2026}"
    case InvalidNumber(msisdn) => "\U{26A0}\U{FE0F} Nomor tidak valid: `" + msisdn + "`"
    case CekUsage => "Format: `/cek 0877xxxxxxxx`"
    case CekInvalid => "\U{26A0}\U{FE0F} Nomor tidak valid. Gunakan 08xxxxxxxxxx / 628xxxxxxxxxx / +628xxxxxxxxxx"
    case CekProgress(msisdn) => "Cek kuota `" + msisdn + "`\U{2026}"
    case QuotaReport(report) => report
    case Unrecognized => "Perintah tidak dikenali. Ketik /menu"
  }
}
