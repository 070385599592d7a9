/** Optional values and results, shared by every module. */
module Common {

  datatype Option<+T> = None | Some(value: T)

  datatype Result<+T, +E> = Ok(value: T) | Err(error: E)

  function Max(a: int, b: int): (m: int)
    ensures m >= a && m >= b && (m == a || m == b)
  {
    if a < b then b else a
  }

  function Min(a: int, b: int): (m: int)
    ensures m <= a && m <= b && (m == a || m == b)
  {
    if a < b then a else b
  }

  const TRUNCATE_LIMIT := 500

  /** Diagnostics are cut to the width a column or a header has for them, with an ellipsis marking the cut. */
  function Truncate(message: string): (t: string)
    ensures |t| <= TRUNCATE_LIMIT
    ensures |message| <= TRUNCATE_LIMIT ==> t == message
    ensures |message| > TRUNCATE_LIMIT ==> |t| == TRUNCATE_LIMIT && t[..TRUNCATE_LIMIT - 1] <= message && t[TRUNCATE_LIMIT - 1] == '\U{2026}'
  {
    if |message| <= TRUNCATE_LIMIT then message else message[..TRUNCATE_LIMIT - 1] + "\U{2026}"
  }

  lemma Element<T>(s: set<T>) returns (x: T)
    requires s != {}
    ensures x in s
  {
    x :| x in s;
  }

  lemma AtMostOne<T>(s: set<T>)
    requires forall x, y :: x in s && y in s ==> x == y
    ensures |s| <= 1
  {
    if |s| > 0 {
      var x :| x in s;
      assert s == {x};
    }
  }

  /** White space as `trim` and `\s` see it. */
  predicate IsSpace(c: char) {
    || '\t' <= c <= '\r' || c == ' ' || c == '\U{00a0}' || c == '\U{1680}' || '\U{2000}' <= c <= '\U{200a}'
    || c == '\U{2028}' || c == '\U{2029}' || c == '\U{202f}' || c == '\U{205f}' || c == '\U{3000}' || c == '\U{feff}'
  }

  /** White space and line terminators, as sections 12.2 and 12.3 of ECMA-262 list them. */
  const SPACES := [0x09, 0x0B, 0x0C, 0xFEFF, 0x20, 0xA0, 0x1680, 0x2000, 0x2001, 0x2002, 0x2003, 0x2004, 0x2005,
                   0x2006, 0x2007, 0x2008, 0x2009, 0x200A, 0x202F, 0x205F, 0x3000, 0x0A, 0x0D, 0x2028, 0x2029]

  lemma SpaceIsListed(c: char)
    ensures IsSpace(c) <==> c as int in SPACES
  {
    var n := c as int;
    assert 0x2000 <= n <= 0x200A ==> SPACES[n - 0x2000 + 7] == n;
    assert SPACES[0] == 9 && SPACES[21] == 10 && SPACES[1] == 11 && SPACES[2] == 12 && SPACES[22] == 13;
    assert SPACES[3] == 0xFEFF && SPACES[4] == 0x20 && SPACES[5] == 0xA0 && SPACES[6] == 0x1680;
    assert SPACES[18] == 0x202F && SPACES[19] == 0x205F && SPACES[20] == 0x3000 && SPACES[23] == 0x2028 && SPACES[24] == 0x2029;
  }

  lemma Associates<T>(a: seq<T>, b: seq<T>, c: seq<T>)
    ensures (a + b) + c == a + (b + c)
  {
  }
}
