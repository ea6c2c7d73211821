/** The dedup key of a modem message (messageKey in internal/modem/worker.go). */
module Keys {
  import opened Text

  /** The hashed text. */
  function Preimage(sender: string, seconds: int, body: string): string {
    sender + "|" + DecimalInt(seconds) + "|" + body
  }

  /** h stands for the hash, printed in hexadecimal. */
  function MessageKey(h: string -> string, imei: string, sender: string, seconds: int, body: string): string {
    "modem:" + imei + ":" + h(Preimage(sender, seconds, body))
  }

  ghost predicate Injective(h: string -> string) {
    forall x, y :: h(x) == h(y) ==> x == y
  }

  lemma DecimalIntHasNoBar(i: int)
    ensures NoChar(DecimalInt(i), '|')
  {
  }

  /** Senders without '|' make the preimage injective. */
  lemma PreimageInjective(s: string, t: int, b: string, s': string, t': int, b': string)
    requires NoChar(s, '|') && NoChar(s', '|')
    requires Preimage(s, t, b) == Preimage(s', t', b')
    ensures s == s' && t == t' && b == b'
  {
    var x, y := DecimalInt(t) + "|" + b, DecimalInt(t') + "|" + b';
    assert Preimage(s, t, b) == s + ['|'] + x && Preimage(s', t', b') == s' + ['|'] + y;
    FirstField(s, s', '|', x, y);
    assert x == DecimalInt(t) + ['|'] + b && y == DecimalInt(t') + ['|'] + b';
    DecimalIntHasNoBar(t);
    DecimalIntHasNoBar(t');
    FirstField(DecimalInt(t), DecimalInt(t'), '|', b, b');
    DecimalIntInjective(t, t');
  }

  /** s' reads as s, a time, and possibly more text. */
  ghost predicate Extends(s: string, s': string) {
    exists t: int :: StartsWith(s' + "|", s + "|" + DecimalInt(t) + "|")
  }

  lemma SplitAt(a: string, b: string, c: string, d: string)
    requires a + b == c + d && |a| <= |c|
    ensures c == a + c[|a|..] && b == c[|a|..] + d
  {
    var s := a + b;
    assert s[..|a|] == a && s == c + d;
    assert c[..|a|] == s[..|a|];
    assert b == s[|a|..];
    assert s[|a|..] == c[|a|..] + d;
  }

  /** A collision with a longer sender shows that sender to extend the shorter one. */
  lemma CollisionExtends(s: string, t: int, b: string, s': string, t': int, b': string)
    requires |s| < |s'| && Preimage(s, t, b) == Preimage(s', t', b')
    ensures Extends(s, s')
  {
    var left, right := s + "|" + DecimalInt(t) + "|", s' + "|";
    assert left + b == right + (DecimalInt(t') + "|" + b');
    if |left| <= |right| {
      SplitAt(left, b, right, DecimalInt(t') + "|" + b');
      assert StartsWith(right, left);
    } else {
      SplitAt(right, DecimalInt(t') + "|" + b', left, b);
      // the bar that ends right lies inside left, after s + "|": it is the bar that ends left
      assert left[..|right|] == right;
      assert left[|s'|] == '|';
      DecimalIntHasNoBar(t);
      assert false;
    }
  }

  lemma SameLengthSame(s: string, t: int, b: string, s': string, t': int, b': string)
    requires |s| == |s'| && Preimage(s, t, b) == Preimage(s', t', b')
    ensures s == s'
  {
    assert s == Preimage(s, t, b)[..|s|] && s' == Preimage(s', t', b')[..|s'|];
  }

  lemma ExtendsCollides(s: string, s': string) returns (t: int, b: string, t': int, b': string)
    requires Extends(s, s') && s != s'
    ensures Preimage(s, t, b) == Preimage(s', t', b')
  {
    t :| StartsWith(s' + "|", s + "|" + DecimalInt(t) + "|");
    var left := s + "|" + DecimalInt(t) + "|";
    t', b' := 0, "";
    b := (s' + "|")[|left|..] + (DecimalInt(0) + "|");
    assert s' + "|" == left + (s' + "|")[|left|..];
    assert Preimage(s', 0, "") == s' + "|" + (DecimalInt(0) + "|");
    assert Preimage(s, t, b) == left + b;
  }

  /** Two different senders can share a preimage exactly when one of them extends the other. */
  lemma SendersCollideIff(s: string, s': string)
    requires s != s'
    ensures (exists t: int, b: string, t': int, b': string :: Preimage(s, t, b) == Preimage(s', t', b'))
            <==> Extends(s, s') || Extends(s', s)
  {
    if t: int, b: string, t': int, b': string :| Preimage(s, t, b) == Preimage(s', t', b') {
      if |s| < |s'| {
        CollisionExtends(s, t, b, s', t', b');
      } else if |s'| < |s| {
        CollisionExtends(s', t', b', s, t, b);
      } else {
        SameLengthSame(s, t, b, s', t', b');
      }
    }
    if Extends(s, s') {
      var t, b, t', b' := ExtendsCollides(s, s');
    } else if Extends(s', s) {
      var t, b, t', b' := ExtendsCollides(s', s);
    }
  }

  /** One key, one modem and one message: an IMEI is digits only, and the hash is taken as injective. */
  lemma MessageKeyInjective(h: string -> string, imei: string, s: string, t: int, b: string,
                            imei': string, s': string, t': int, b': string)
    requires Injective(h) && AllDigits(imei) && AllDigits(imei') && NoChar(s, '|') && NoChar(s', '|')
    requires MessageKey(h, imei, s, t, b) == MessageKey(h, imei', s', t', b')
    ensures imei == imei' && s == s' && t == t' && b == b'
  {
    var x, y := h(Preimage(s, t, b)), h(Preimage(s', t', b'));
    var k, k' := MessageKey(h, imei, s, t, b), MessageKey(h, imei', s', t', b');
    assert k[6..] == imei + [':'] + x && k'[6..] == imei' + [':'] + y;
    FirstField(imei, imei', ':', x, y);
    PreimageInjective(s, t, b, s', t', b');
  }

  /** For one modem and one sender no condition on the sender is needed. */
  lemma SameSender(h: string -> string, imei: string, s: string, t: int, b: string, t': int, b': string)
    requires Injective(h) && MessageKey(h, imei, s, t, b) == MessageKey(h, imei, s, t', b')
    ensures t == t' && b == b'
  {
    var start := "modem:" + imei + ":";
    var x, y := Preimage(s, t, b), Preimage(s, t', b');
    assert MessageKey(h, imei, s, t, b)[|start|..] == h(x) && MessageKey(h, imei, s, t', b')[|start|..] == h(y);
    var lead := s + "|";
    assert x[|lead|..] == DecimalInt(t) + ['|'] + b && y[|lead|..] == DecimalInt(t') + ['|'] + b';
    DecimalIntHasNoBar(t);
    DecimalIntHasNoBar(t');
    FirstField(DecimalInt(t), DecimalInt(t'), '|', b, b');
    DecimalIntInjective(t, t');
  }
}
