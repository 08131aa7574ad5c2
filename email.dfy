/**
 * Requester addresses: PHP's FILTER_SANITIZE_EMAIL filter and the domain
 * extraction `substr(strrchr($address, '@'), 1)` shared by three endpoints.
 *
 * FILTER_VALIDATE_EMAIL is PHP library code with a large grammar; every
 * renderer takes it as a parameter `valid: string -> bool`.
 */
module Email {
  import opened Strings

  /** The characters FILTER_SANITIZE_EMAIL keeps: ASCII letters, digits and
      !#$%&'*+-=?^_`{|}~@.[] */
  predicate Kept(c: char) {
    ('a' <= c <= 'z') || ('A' <= c <= 'Z') || IsDigit(c) ||
    c in "!#$%&'*+-=?^_`{|}~@.[]"
  }

  /** `filter_var($s, FILTER_SANITIZE_EMAIL)`: drops every other character. */
  function Sanitize(s: string): (r: string)
    ensures |r| <= |s|
    ensures forall i :: 0 <= i < |r| ==> Kept(r[i])
  {
    if s == [] then []
    else Sanitize(s[..|s| - 1]) + (if Kept(s[|s| - 1]) then [s[|s| - 1]] else [])
  }

  /** The sanitised text is exactly the kept characters: an address made of
      kept characters only passes through unchanged. */
  lemma {:induction false} SanitizeKeepsKept(s: string)
    requires forall i :: 0 <= i < |s| ==> Kept(s[i])
    ensures Sanitize(s) == s
  {
    if s != [] {
      SanitizeKeepsKept(s[..|s| - 1]);
      assert s[..|s| - 1] + [s[|s| - 1]] == s;
    }
  }

  /** Sanitising twice is sanitising once. */
  lemma SanitizeIdempotent(s: string)
    ensures Sanitize(Sanitize(s)) == Sanitize(s)
  {
    SanitizeKeepsKept(Sanitize(s));
  }

  /** The filter keeps every '@', so it keeps the last one too. */
  lemma {:induction false} SanitizeKeepsAt(s: string)
    ensures '@' in Sanitize(s) <==> '@' in s
  {
    if s != [] {
      var init := s[..|s| - 1];
      SanitizeKeepsAt(init);
      assert s == init + [s[|s| - 1]];
    }
  }

  /** The text after the last `c`; all of `s` when it holds no `c`. */
  function AfterLast(s: string, c: char): (r: string)
    ensures c !in r
    ensures |r| <= |s| && r == s[|s| - |r|..]
    ensures c in s ==> |r| < |s| && s[|s| - |r| - 1] == c
    ensures c !in s ==> r == s
  {
    if s == [] then []
    else if s[|s| - 1] == c then []
    else
      var init := s[..|s| - 1];
      assert s == init + [s[|s| - 1]];
      assert c in s <==> c in init;
      var r := AfterLast(init, c) + [s[|s| - 1]];
      assert r == s[|s| - |r|..];
      r
  }

  /** `substr(strrchr($s, '@'), 1)`: the text after the last '@', and ""
      when there is no '@' (`strrchr` gives false, which `substr` reads as
      the empty string). */
  function DomainOf(s: string): (domain: string)
    ensures '@' !in domain
    ensures domain != "" ==> '@' in s
    ensures '@' in s ==> |domain| < |s| && s == s[..|s| - |domain| - 1] + "@" + domain
  {
    if '@' in s then AfterLast(s, '@') else ""
  }

  /** The domain of `local@domain` is `domain`, whatever '@'s the local
      part holds. */
  lemma {:induction false} DomainOfAddress(local: string, domain: string)
    requires '@' !in domain
    ensures DomainOf(local + "@" + domain) == domain
  {
    var s := local + "@" + domain;
    assert s[|local|] == '@';
    DomainAfterSuffix(local + "@", domain);
  }

  lemma {:induction false} DomainAfterSuffix(a: string, b: string)
    requires a != [] && a[|a| - 1] == '@'
    requires '@' !in b
    ensures AfterLast(a + b, '@') == b
  {
    if b != [] {
      var init, c := b[..|b| - 1], b[|b| - 1];
      assert init + [c] == b;
      assert a + b == (a + init) + [c];
      DomainAfterSuffix(a, init);
      AfterLastSnoc(a + init, c);
    } else {
      assert a + b == a;
    }
  }

  lemma SanitizeSnoc(t: string, c: char)
    ensures Sanitize(t + [c]) == Sanitize(t) + (if Kept(c) then [c] else [])
  {
    assert (t + [c])[..|t|] == t;
  }

  lemma AfterLastSnoc(t: string, c: char)
    requires c != '@'
    ensures AfterLast(t + [c], '@') == AfterLast(t, '@') + [c]
  {
    assert (t + [c])[..|t|] == t;
  }

  /** Taking the domain before or after sanitising gives the same result up
      to sanitising it: the ISPDB endpoint takes the domain of the raw
      parameter, the two others that of the sanitised address. */
  lemma {:induction false} DomainOfSanitize(s: string)
    ensures DomainOf(Sanitize(s)) == Sanitize(DomainOf(s))
  {
    SanitizeKeepsAt(s);
    if '@' in s {
      AfterLastOfSanitize(s);
    }
  }

  lemma {:induction false} AfterLastOfSanitize(s: string)
    requires '@' in s
    ensures AfterLast(Sanitize(s), '@') == Sanitize(AfterLast(s, '@'))
  {
    var init, last := s[..|s| - 1], s[|s| - 1];
    assert s == init + [last];
    SanitizeSnoc(init, last);
    var t := Sanitize(init);
    if last == '@' {
      assert Sanitize(s) == t + ['@'];
      assert AfterLast(t + ['@'], '@') == [];
      assert AfterLast(s, '@') == [];
    } else {
      assert '@' in init;
      var a := AfterLast(init, '@');
      AfterLastOfSanitize(init);
      assert AfterLast(t, '@') == Sanitize(a);
      AfterLastSnoc(init, last);
      assert AfterLast(s, '@') == a + [last];
      SanitizeSnoc(a, last);
      if Kept(last) {
        AfterLastSnoc(t, last);
        assert Sanitize(s) == t + [last];
        assert AfterLast(Sanitize(s), '@') == Sanitize(a) + [last];
        assert Sanitize(a + [last]) == Sanitize(a) + [last];
      } else {
        assert Sanitize(s) == t;
        assert Sanitize(a + [last]) == Sanitize(a);
      }
    }
  }
}
