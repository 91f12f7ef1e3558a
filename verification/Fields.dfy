/** The widths of text fields (include/ircd_defs.h) and copying into them (`strncpy_irc`, src/irc_string.c). */
module Fields {
  const NICKLEN := 30
  const USERLEN := 10
  const HOSTLEN := 63
  const CHANNELLEN := 200
  const KEYLEN := 23
  const BUFSIZE := 512

  /** What a field of `n` characters keeps of `s`. */
  function Clip(s: string, n: nat): string { if |s| <= n then s else s[..n] }
}
