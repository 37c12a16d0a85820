/** The static table of Appendix A of RFC 9204 (src/transport/qpack.rs). */
module StaticTable {
  import opened Common

  const ENTRIES: nat := 99

  function Entries0(i: nat): (r: (string, string))
    ensures r.0 != [] && r.0[0] as int % 256 != 'u' as int
  {
    match i
    case 0 => (":authority", "")
    case 1 => (":path", "/")
    case 2 => ("age", "0")
    case 3 => ("content-disposition", "")
    case 4 => ("content-length", "0")
    case 5 => ("cookie", "")
    case 6 => ("date", "")
    case 7 => ("etag", "")
    case 8 => ("if-modified-since", "")
    case 9 => ("if-none-match", "")
    case _ => ("last-modified", "")
  }

  function Entries1(i: nat): (r: (string, string))
    ensures r.0 != [] && r.0[0] as int % 256 != 'u' as int
  {
    match i
    case 11 => ("link", "")
    case 12 => ("location", "")
    case 13 => ("referer", "")
    case 14 => ("set-cookie", "")
    case 15 => (":method", "CONNECT")
    case 16 => (":method", "DELETE")
    case 17 => (":method", "GET")
    case 18 => (":method", "HEAD")
    case 19 => (":method", "OPTIONS")
    case 20 => (":method", "POST")
    case _ => (":method", "PUT")
  }

  function Entries2(i: nat): (r: (string, string))
    ensures r.0 != [] && r.0[0] as int % 256 != 'u' as int
  {
    match i
    case 22 => (":scheme", "http")
    case 23 => (":scheme", "https")
    case 24 => (":status", "103")
    case 25 => (":status", "200")
    case 26 => (":status", "304")
    case 27 => (":status", "404")
    case 28 => (":status", "503")
    case 29 => ("accept", "*/*")
    case 30 => ("accept", "application/dns-message")
    case 31 => ("accept-encoding", "gzip, deflate, br")
    case _ => ("accept-ranges", "bytes")
  }

  function Entries3(i: nat): (r: (string, string))
    ensures r.0 != [] && r.0[0] as int % 256 != 'u' as int
  {
    match i
    case 33 => ("access-control-allow-headers", "cache-control")
    case 34 => ("access-control-allow-headers", "content-type")
    case 35 => ("access-control-allow-origin", "*")
    case 36 => ("cache-control", "max-age=0")
    case 37 => ("cache-control", "max-age=2592000")
    case 38 => ("cache-control", "max-age=604800")
    case 39 => ("cache-control", "no-cache")
    case 40 => ("cache-control", "no-store")
    case 41 => ("cache-control", "public, max-age=31536000")
    case 42 => ("content-encoding", "br")
    case _ => ("content-encoding", "gzip")
  }

  function Entries4(i: nat): (r: (string, string))
    ensures r.0 != [] && r.0[0] as int % 256 != 'u' as int
  {
    match i
    case 44 => ("content-type", "application/dns-message")
    case 45 => ("content-type", "application/javascript")
    case 46 => ("content-type", "application/json")
    case 47 => ("content-type", "application/x-www-form-urlencoded")
    case 48 => ("content-type", "image/gif")
    case 49 => ("content-type", "image/jpeg")
    case 50 => ("content-type", "image/png")
    case 51 => ("content-type", "text/css")
    case 52 => ("content-type", "text/html; charset=utf-8")
    case 53 => ("content-type", "text/plain")
    case _ => ("content-type", "text/plain;charset=utf-8")
  }

  function Entries5(i: nat): (r: (string, string))
    ensures r.0 != [] && r.0[0] as int % 256 != 'u' as int
  {
    match i
    case 55 => ("range", "bytes=0-")
    case 56 => ("strict-transport-security", "max-age=31536000")
    case 57 => ("strict-transport-security", "max-age=31536000; includesubdomains")
    case 58 => ("strict-transport-security", "max-age=31536000; includesubdomains; preload")
    case 59 => ("vary", "accept-encoding")
    case 60 => ("vary", "origin")
    case 61 => ("x-content-type-options", "nosniff")
    case 62 => ("x-xss-protection", "1; mode=block")
    case 63 => (":status", "100")
    case 64 => (":status", "204")
    case _ => (":status", "206")
  }

  function Entries6(i: nat): (r: (string, string))
    ensures r.0 != []
  {
    match i
    case 66 => (":status", "302")
    case 67 => (":status", "400")
    case 68 => (":status", "403")
    case 69 => (":status", "421")
    case 70 => (":status", "425")
    case 71 => (":status", "500")
    case 72 => ("accept-language", "")
    case 73 => ("access-control-allow-credentials", "FALSE")
    case 74 => ("access-control-allow-credentials", "TRUE")
    case 75 => ("access-control-allow-headers", "*")
    case _ => ("access-control-allow-methods", "get")
  }

  function Entries7(i: nat): (r: (string, string))
    ensures r.0 != []
  {
    match i
    case 77 => ("access-control-allow-methods", "get, post, options")
    case 78 => ("access-control-allow-methods", "options")
    case 79 => ("access-control-expose-headers", "content-length")
    case 80 => ("access-control-request-headers", "content-type")
    case 81 => ("access-control-request-method", "get")
    case 82 => ("access-control-request-method", "post")
    case 83 => ("alt-svc", "clear")
    case 84 => ("authorization", "")
    case 85 => ("content-security-policy", "script-src 'none'; object-src 'none'; base-uri 'none'")
    case 86 => ("early-data", "1")
    case _ => ("expect-ct", "")
  }

  function Entries8(i: nat): (r: (string, string))
    ensures r.0 != []
  {
    match i
    case 88 => ("forwarded", "")
    case 89 => ("if-range", "")
    case 90 => ("origin", "")
    case 91 => ("purpose", "prefetch")
    case 92 => ("server", "")
    case 93 => ("timing-allow-origin", "*")
    case 94 => ("upgrade-insecure-requests", "1")
    case 95 => ("user-agent", "")
    case 96 => ("x-forwarded-for", "")
    case 97 => ("x-frame-options", "deny")
    case _ => ("x-frame-options", "sameorigin")
  }

  function EntryText(i: nat): (r: (string, string))
    ensures r.0 != [] && (i < 66 ==> r.0[0] as int % 256 != 'u' as int)
  {
    match i / 11
    case 0 => Entries0(i) case 1 => Entries1(i) case 2 => Entries2(i) case 3 => Entries3(i)
    case 4 => Entries4(i) case 5 => Entries5(i) case 6 => Entries6(i) case 7 => Entries7(i)
    case _ => Entries8(i)
  }

  /** Text as octets. */
  function Ascii(text: string): bytes {
    seq(|text|, i requires 0 <= i < |text| => text[i] as int % 256)
  }

  /** A field's two octet strings, as octets. */
  type Field = (bytes, bytes)

  function StaticEntry(i: nat): Field
    requires i < ENTRIES
  {
    (Ascii(EntryText(i).0), Ascii(EntryText(i).1))
  }
}
