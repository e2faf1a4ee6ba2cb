/**
  The per-user configuration file (services/users.py, `render_user_config`,
  `parse_user_config_file`): one `key = value` line per value, a key repeated
  for lists. Values are validated elsewhere; here they are any strings.
 */
module UserConfigFile {
  import opened Options
  import opened Text
  import opened Lines

  // --- Keys ----------------------------------------------------------------

  datatype Keyword =
    | Dns | Nbns | SplitDns | Route | NoRoute | Iroute | Ipv4Network | Ipv4Netmask | Ipv6Network
    | Ipv6SubnetPrefix | ExplicitIpv4 | ExplicitIpv6 | RxDataPerSec | TxDataPerSec | NetPriority | Keepalive
    | Dpd | MobileDpd | MaxSameClients | StatsReportTime | Mtu | IdleTimeout | MobileIdleTimeout
    | RestrictUserToPorts | SessionTimeout | Hostname | DenyRoaming | NoUdp | TunnelAllDns
    | RestrictUserToRoutes

  datatype Kind = Repeated | Textual | Count | Switch

  function KindOf(k: Keyword): Kind {
    match k
    case Dns | Nbns | SplitDns | Route | NoRoute | Iroute => Repeated
    case Ipv4Network | Ipv4Netmask | Ipv6Network | ExplicitIpv4 | ExplicitIpv6 => Textual
    case NetPriority | RestrictUserToPorts | Hostname => Textual
    case DenyRoaming | NoUdp | TunnelAllDns | RestrictUserToRoutes => Switch
    case _ => Count
  }

  function Spelling(k: Keyword): (s: string)
    ensures |s| >= 3
  {
    match k
    case Dns => "dns"
    case Nbns => "nbns"
    case SplitDns => "split-dns"
    case Route => "route"
    case NoRoute => "no-route"
    case Iroute => "iroute"
    case Ipv4Network => "ipv4-network"
    case Ipv4Netmask => "ipv4-netmask"
    case Ipv6Network => "ipv6-network"
    case Ipv6SubnetPrefix => "ipv6-subnet-prefix"
    case ExplicitIpv4 => "explicit-ipv4"
    case ExplicitIpv6 => "explicit-ipv6"
    case RxDataPerSec => "rx-data-per-sec"
    case TxDataPerSec => "tx-data-per-sec"
    case NetPriority => "net-priority"
    case Keepalive => "keepalive"
    case Dpd => "dpd"
    case MobileDpd => "mobile-dpd"
    case MaxSameClients => "max-same-clients"
    case StatsReportTime => "stats-report-time"
    case Mtu => "mtu"
    case IdleTimeout => "idle-timeout"
    case MobileIdleTimeout => "mobile-idle-timeout"
    case RestrictUserToPorts => "restrict-user-to-ports"
    case SessionTimeout => "session-timeout"
    case Hostname => "hostname"
    case DenyRoaming => "deny-roaming"
    case NoUdp => "no-udp"
    case TunnelAllDns => "tunnel-all-dns"
    case RestrictUserToRoutes => "restrict-user-to-routes"
  }

  /** The order in which the file is written. */
  const ORDER: seq<Keyword> := [
    Dns, Nbns, SplitDns, Route, NoRoute, Iroute, Ipv4Network, Ipv4Netmask, Ipv6Network, Ipv6SubnetPrefix,
    ExplicitIpv4, ExplicitIpv6, RxDataPerSec, TxDataPerSec, NetPriority, Keepalive, Dpd, MobileDpd,
    MaxSameClients, StatsReportTime, Mtu, IdleTimeout, MobileIdleTimeout, RestrictUserToPorts, SessionTimeout,
    Hostname, DenyRoaming, NoUdp, TunnelAllDns, RestrictUserToRoutes
  ]

  predicate KeyChar(ch: char) {
    'a' <= ch <= 'z' || IsDigit(ch) || ch == '-'
  }

  ghost predicate Plain(s: string) {
    forall i :: 0 <= i < |s| ==> KeyChar(s[i])
  }

  lemma ShortPlain(k: Keyword)
    requires KindOf(k).Repeated? || KindOf(k).Switch?
    ensures Plain(Spelling(k))
  {
  }

  lemma TextualPlain(k: Keyword)
    requires KindOf(k).Textual?
    ensures Plain(Spelling(k))
  {
  }

  predicate ShortCount(k: Keyword) {
    k.Keepalive? || k.Dpd? || k.MobileDpd? || k.Mtu? || k.IdleTimeout? || k.SessionTimeout?
  }

  lemma ShortCountPlain(k: Keyword)
    requires ShortCount(k)
    ensures Plain(Spelling(k))
  {
  }

  predicate RateCount(k: Keyword) {
    k.RxDataPerSec? || k.TxDataPerSec? || k.StatsReportTime?
  }

  lemma RateCountPlain(k: Keyword)
    requires RateCount(k)
    ensures Plain(Spelling(k))
  {
  }

  lemma LongCountPlain(k: Keyword)
    requires KindOf(k).Count? && !ShortCount(k) && !RateCount(k)
    ensures Plain(Spelling(k))
  {
  }

  lemma SpellingPlain(k: Keyword)
    ensures Plain(Spelling(k))
  {
    hide Spelling, Plain;
    match KindOf(k)
    case Textual => TextualPlain(k);
    case Count =>
      if ShortCount(k) {
        ShortCountPlain(k);
      } else if RateCount(k) {
        RateCountPlain(k);
      } else {
        LongCountPlain(k);
      }
    case _ => ShortPlain(k);
  }

  /** Four characters that tell all the keys apart. */
  function Mark(s: string): (char, char, char, char)
    requires |s| >= 3
  {
    (s[0], if |s| > 3 then s[3] else ' ', s[|s| - 1], s[|s| - 2])
  }

  function MarkOf(k: Keyword): (char, char, char, char) {
    match k
    case Dns => ('d', ' ', 's', 'n')
    case Nbns => ('n', 's', 's', 'n')
    case SplitDns => ('s', 'i', 's', 'n')
    case Route => ('r', 't', 'e', 't')
    case NoRoute => ('n', 'r', 'e', 't')
    case Iroute => ('i', 'u', 'e', 't')
    case Ipv4Network => ('i', '4', 'k', 'r')
    case Ipv4Netmask => ('i', '4', 'k', 's')
    case Ipv6Network => ('i', '6', 'k', 'r')
    case Ipv6SubnetPrefix => ('i', '6', 'x', 'i')
    case ExplicitIpv4 => ('e', 'l', '4', 'v')
    case ExplicitIpv6 => ('e', 'l', '6', 'v')
    case RxDataPerSec => ('r', 'd', 'c', 'e')
    case TxDataPerSec => ('t', 'd', 'c', 'e')
    case NetPriority => ('n', '-', 'y', 't')
    case Keepalive => ('k', 'p', 'e', 'v')
    case Dpd => ('d', ' ', 'd', 'p')
    case MobileDpd => ('m', 'i', 'd', 'p')
    case MaxSameClients => ('m', '-', 's', 't')
    case StatsReportTime => ('s', 't', 'e', 'm')
    case Mtu => ('m', ' ', 'u', 't')
    case IdleTimeout => ('i', 'e', 't', 'u')
    case MobileIdleTimeout => ('m', 'i', 't', 'u')
    case RestrictUserToPorts => ('r', 't', 's', 't')
    case SessionTimeout => ('s', 's', 't', 'u')
    case Hostname => ('h', 't', 'e', 'm')
    case DenyRoaming => ('d', 'y', 'g', 'n')
    case NoUdp => ('n', 'u', 'p', 'd')
    case TunnelAllDns => ('t', 'n', 's', 'n')
    case RestrictUserToRoutes => ('r', 't', 's', 'e')
  }

  lemma ShortMark(k: Keyword)
    requires KindOf(k).Repeated? || KindOf(k).Switch?
    ensures Mark(Spelling(k)) == MarkOf(k)
  {
  }

  lemma TextualMark(k: Keyword)
    requires KindOf(k).Textual?
    ensures Mark(Spelling(k)) == MarkOf(k)
  {
  }

  lemma CountMark(k: Keyword)
    requires KindOf(k).Count?
    ensures Mark(Spelling(k)) == MarkOf(k)
  {
  }

  lemma SpellingMark(k: Keyword)
    ensures Mark(Spelling(k)) == MarkOf(k)
  {
    hide Spelling, MarkOf;
    match KindOf(k)
    case Textual => TextualMark(k);
    case Count => CountMark(k);
    case _ => ShortMark(k);
  }

  lemma SpellingsDiffer(a: Keyword, b: Keyword)
    requires Spelling(a) == Spelling(b)
    ensures a == b
  {
    hide Spelling, Mark;
    SpellingMark(a);
    SpellingMark(b);
  }

  function Find(word: string, i: nat): (r: Option<Keyword>)
    requires i <= |ORDER|
    ensures r.Some? ==> Spelling(r.value) == word
    ensures r.None? ==> forall j :: i <= j < |ORDER| ==> Spelling(ORDER[j]) != word
    decreases |ORDER| - i
  {
    if i == |ORDER| then None else if Spelling(ORDER[i]) == word then Some(ORDER[i]) else Find(word, i + 1)
  }

  /** Looking a key up in the parser's tables. */
  function KeywordOf(word: string): Option<Keyword> {
    Find(word, 0)
  }

  lemma KeywordFound(k: Keyword)
    ensures KeywordOf(Spelling(k)) == Some(k)
  {
    hide Spelling, Find;
    InOrder(k);
    var found := Find(Spelling(k), 0);
    if found.Some? {
      SpellingsDiffer(found.value, k);
    }
  }

  /** The place of a key in the file. */
  function Rank(k: Keyword): (n: nat)
  {
    match k
    case Dns => 0
    case Nbns => 1
    case SplitDns => 2
    case Route => 3
    case NoRoute => 4
    case Iroute => 5
    case Ipv4Network => 6
    case Ipv4Netmask => 7
    case Ipv6Network => 8
    case Ipv6SubnetPrefix => 9
    case ExplicitIpv4 => 10
    case ExplicitIpv6 => 11
    case RxDataPerSec => 12
    case TxDataPerSec => 13
    case NetPriority => 14
    case Keepalive => 15
    case Dpd => 16
    case MobileDpd => 17
    case MaxSameClients => 18
    case StatsReportTime => 19
    case Mtu => 20
    case IdleTimeout => 21
    case MobileIdleTimeout => 22
    case RestrictUserToPorts => 23
    case SessionTimeout => 24
    case Hostname => 25
    case DenyRoaming => 26
    case NoUdp => 27
    case TunnelAllDns => 28
    case RestrictUserToRoutes => 29
  }

  lemma InOrder(k: Keyword)
    ensures Rank(k) < |ORDER| && ORDER[Rank(k)] == k
  {
  }

  lemma EarlyRanks(i: nat)
    requires i < 15
    ensures Rank(ORDER[i]) == i
  {
  }

  lemma LateRanks(i: nat)
    requires 15 <= i < |ORDER|
    ensures Rank(ORDER[i]) == i
  {
  }

  lemma OrderRanks(i: nat)
    requires i < |ORDER|
    ensures Rank(ORDER[i]) == i
  {
    hide Rank;
    if i < 15 {
      EarlyRanks(i);
    } else {
      LateRanks(i);
    }
  }

  // --- Values --------------------------------------------------------------

  datatype Value = Words(words: seq<string>) | Word(word: string) | Number(n: int) | Truth(b: bool)

  /** By key; what is absent is None. The lists are always there. */
  type Config = map<Keyword, Value>

  predicate Fits(k: Keyword, v: Value) {
    match KindOf(k)
    case Repeated => v.Words?
    case Textual => v.Word?
    case Count => v.Number? && v.n >= 0
    case Switch => v.Truth?
  }

  ghost predicate Typed(c: Config) {
    forall k: Keyword :: if k in c then Fits(k, c[k]) else !KindOf(k).Repeated?
  }

  function Empty(): Config {
    map k: Keyword | KindOf(k).Repeated? :: Words([])
  }

  // --- Reading numbers and switches ----------------------------------------

  /** `int(s, 10)` without its sign: digits, with single underscores between them. */
  function Digits(s: string): Option<nat> {
    if s == "" || !IsDigit(s[|s| - 1]) then None
    else
      var last := s[|s| - 1] as int - '0' as int;
      var front := s[..|s| - 1];
      if front == "" then Some(last)
      else
        var more := Digits(if front[|front| - 1] == '_' then front[..|front| - 1] else front);
        if more.Some? then Some(more.value * 10 + last) else None
  }

  function ParseInt(value: string): Option<int> {
    var s := Strip(value);
    var n := if s != "" && (s[0] == '-' || s[0] == '+') then Digits(s[1..]) else Digits(s);
    if n.None? then None
    else
      var value: int := if s != "" && s[0] == '-' then -(n.value as int) else n.value;
      Some(value)
  }

  function Lower(s: string): string {
    seq(|s|, i requires 0 <= i < |s| =>
      if 'A' <= s[i] <= 'Z' then ((s[i] as int - 'A' as int) + 'a' as int) as char else s[i])
  }

  function ParseBool(value: string): Option<bool> {
    var lowered := Lower(Strip(value));
    if lowered == "true" || lowered == "yes" || lowered == "1" || lowered == "on" then Some(true)
    else if lowered == "false" || lowered == "no" || lowered == "0" || lowered == "off" then Some(false)
    else None
  }

  lemma {:induction false} DigitsOfDecimal(n: nat)
    ensures Digits(Decimal(n)) == Some(n)
  {
    var s := Decimal(n);
    var last := s[|s| - 1];
    assert last == Digit(n % 10) && last as int - '0' as int == n % 10;
    if n < 10 {
      assert s[..|s| - 1] == "";
    } else {
      DigitsOfDecimal(n / 10);
      assert s[..|s| - 1] == Decimal(n / 10);
      assert IsDigit(Decimal(n / 10)[|Decimal(n / 10)| - 1]);
    }
  }

  lemma ParseIntOfDecimal(n: nat)
    ensures ParseInt(Decimal(n)) == Some(n)
  {
    var s := Decimal(n);
    assert IsDigit(s[0]) && IsDigit(s[|s| - 1]);
    TrimIsNothingIff(s, Blank);
    DigitsOfDecimal(n);
  }

  lemma LowerAlready(s: string)
    requires Plain(s)
    ensures Lower(s) == s
  {
  }

  lemma StripPlain(s: string)
    requires Plain(s)
    ensures Strip(s) == s
  {
    hide Trim;
    TrimIsNothingIff(s, Blank);
    if s != "" {
      assert KeyChar(s[0]) && KeyChar(s[|s| - 1]);
    }
  }

  lemma TruthTextPlain(b: bool)
    ensures Plain(TruthText(b))
  {
  }

  lemma ParseBoolOfTruth(b: bool)
    ensures ParseBool(TruthText(b)) == Some(b)
  {
    hide Strip, Lower, Plain;
    TruthTextPlain(b);
    StripPlain(TruthText(b));
    LowerAlready(TruthText(b));
  }

  // --- Parsing -------------------------------------------------------------

  predicate IsHash(ch: char) {
    ch == '#'
  }

  predicate IsEquals(ch: char) {
    ch == '='
  }

  predicate IsQuote(ch: char) {
    ch == '\"'
  }

  function Maybe(c: Config, k: Keyword, v: Option<Value>): Config {
    if v.Some? then c[k := v.value] else c - {k}
  }

  function Store(c: Config, k: Keyword, value: string): Config {
    match KindOf(k)
    case Repeated => c[k := Words((if k in c && c[k].Words? then c[k].words else []) + [value])]
    case Textual => c[k := Word(value)]
    case Count => Maybe(c, k, if ParseInt(value).Some? then Some(Number(ParseInt(value).value)) else None)
    case Switch => Maybe(c, k, if ParseBool(value).Some? then Some(Truth(ParseBool(value).value)) else None)
  }

  function ParseLine(c: Config, line: string): Config {
    var clean := Strip(line[..First(line, IsHash)]);
    var eq := First(clean, IsEquals);
    if eq == |clean| then c
    else
      var key := KeywordOf(Strip(clean[..eq]));
      if key.None? then c
      else Store(c, key.value, Trim(Strip(Strip(clean[eq + 1..])), IsQuote))
  }

  function Fold(c: Config, lines: seq<string>): Config
    decreases |lines|
  {
    if lines == [] then c else Fold(ParseLine(c, lines[0]), lines[1..])
  }

  function Parse(text: string): Config {
    Fold(Empty(), SplitLines(text))
  }

  // --- Rendering -----------------------------------------------------------

  const HEADER := "# Generated by " + "korserver. Manual edits " + "may be overwritten."

  function TruthText(b: bool): string {
    if b then "true" else "false"
  }

  function LineFor(k: Keyword, value: string): string {
    Spelling(k) + " = " + value
  }

  function LinesFor(k: Keyword, v: Value): seq<string> {
    match v
    case Words(words) => seq(|words|, i requires 0 <= i < |words| => LineFor(k, words[i]))
    case Word(word) => [LineFor(k, word)]
    case Number(n) => [LineFor(k, if n < 0 then "-" + Decimal(-n) else Decimal(n))]
    case Truth(b) => [LineFor(k, TruthText(b))]
  }

  function LinesFrom(c: Config, i: nat): seq<string>
    requires i <= |ORDER|
    decreases |ORDER| - i
  {
    if i == |ORDER| then []
    else (if ORDER[i] in c then LinesFor(ORDER[i], c[ORDER[i]]) else []) + LinesFrom(c, i + 1)
  }

  function Render(c: Config): string {
    Terminated([HEADER] + LinesFrom(c, 0))
  }

  // --- Lines written by hand -----------------------------------------------

  lemma FirstBefore(line: string, rest: string)
    requires rest != "" && IsHash(rest[0])
    ensures First(line + rest, IsHash) == First(line, IsHash)
  {
    var all := line + rest;
    var k, n := First(line, IsHash), First(all, IsHash);
    assert forall i :: 0 <= i < |line| ==> all[i] == line[i];
    assert all[|line|] == rest[0];
    assert n <= |line|;
  }

  /** A comment changes nothing, wherever on the line it starts. */
  lemma CommentsIgnored(c: Config, line: string, comment: string)
    requires comment != "" && IsHash(comment[0])
    ensures ParseLine(c, line + comment) == ParseLine(c, line)
  {
    hide First, Strip, Trim, Store, KeywordOf;
    FirstBefore(line, comment);
    var k := First(line, IsHash);
    assert (line + comment)[..k] == line[..k];
  }

  /** Switches are read in exactly these spellings (blanks and capitals aside). */
  lemma SwitchWordsIff(s: string)
    requires Plain(s)
    ensures ParseBool(s) == Some(true) <==> s == "true" || s == "yes" || s == "1" || s == "on"
    ensures ParseBool(s) == Some(false) <==> s == "false" || s == "no" || s == "0" || s == "off"
  {
    hide Strip, Lower, Plain;
    StripPlain(s);
    LowerAlready(s);
  }
}
