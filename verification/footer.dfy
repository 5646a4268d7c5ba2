/** The footer's contact links (src/components/layout/Footer.tsx). */
module Footer {
  import opened Text
  import opened Seqs

  const DefaultPhone := "+7 (988) " + "149-99-89"
  const DefaultEmail := "mashtabss@mail.ru"

  /** The characters `/[\s()-]/g` removes. */
  predicate Separator(c: char)
  {
    IsSpace(c) || c == '(' || c == ')' || c == '-'
  }

  function Dialable(): char -> bool
  {
    c => !Separator(c)
  }

  /** The phone number without spaces, brackets and dashes. */
  function StripPhone(phone: string): (digits: string)
    ensures |digits| <= |phone|
  {
    if phone == [] then []
    else (if Separator(phone[0]) then [] else [phone[0]]) + StripPhone(phone[1..])
  }

  /** Stripping is the regular expression replace, i.e. a filter on the characters. */
  lemma {:induction false} StripIsFilter(phone: string)
    ensures StripPhone(phone) == Filter(phone, Dialable())
  {
    if phone != [] {
      StripIsFilter(phone[1..]);
    }
  }

  /** No separator is left, every other character stays. */
  lemma StripRemovesExactlySeparators(phone: string)
    ensures forall i :: 0 <= i < |StripPhone(phone)| ==>
      !Separator(StripPhone(phone)[i]) && StripPhone(phone)[i] in phone
    ensures forall i :: 0 <= i < |phone| && !Separator(phone[i]) ==> phone[i] in StripPhone(phone)
  {
    StripIsFilter(phone);
  }

  /** The kept characters stay in their order. */
  lemma StripKeepsOrder(phone: string)
    ensures IsSubsequence(StripPhone(phone), phone)
  {
    StripIsFilter(phone);
    FilterIsSubsequence(phone, Dialable());
  }

  /** Stripping twice strips nothing more. */
  lemma StripIdempotent(phone: string)
    ensures StripPhone(StripPhone(phone)) == StripPhone(phone)
  {
    StripIsFilter(phone);
    StripIsFilter(StripPhone(phone));
    FilterIdempotent(phone, Dialable());
  }

  /** The `tel:` link. */
  function TelHref(phone: string): (href: string)
    ensures |href| == 4 + |StripPhone(phone)|
    ensures href[..4] == "tel:" && href[4..] == StripPhone(phone)
  {
    "tel:" + StripPhone(phone)
  }

  /** The `mailto:` link carries the address verbatim. */
  function MailtoHref(email: string): (href: string)
    ensures |href| == 7 + |email|
    ensures href[..7] == "mailto:" && href[7..] == email
  {
    "mailto:" + email
  }

  /** Stripping works piece by piece. */
  lemma {:induction false} StripAppend(a: string, b: string)
    ensures StripPhone(a + b) == StripPhone(a) + StripPhone(b)
  {
    if a == [] {
      assert a + b == b;
    } else {
      var ab := a + b;
      assert ab[0] == a[0];
      assert ab[1..] == a[1..] + b;
      StripAppend(a[1..], b);
      var k: string, ta, tb := if Separator(a[0]) then [] else [a[0]], StripPhone(a[1..]), StripPhone(b);
      calc {
        StripPhone(ab);
        k + StripPhone(a[1..] + b);
        k + (ta + tb);
        { assert k + (ta + tb) == (k + ta) + tb; }
        (k + ta) + tb;
        StripPhone(a) + tb;
      }
    }
  }

  lemma StripThree(a: string, b: string, c: string)
    ensures StripPhone(a + b + c) == StripPhone(a) + StripPhone(b) + StripPhone(c)
  {
    StripAppend(a, b);
    StripAppend(a + b, c);
  }
}

/** The footer's links for the site's own contact details. */
module FooterDefaults {
  import opened Footer

  /** The country and area code "+7 (988) " of the default phone strips to "+7988". */
  lemma StripDefaultCode(code: string)
    requires code == "+7 " + "(98" + "8) "
    ensures StripPhone(code) == "+7" + "98" + "8"
  {
    assert StripPhone("+7 ") == "+7";
    assert StripPhone("(98") == "98";
    assert StripPhone("8) ") == "8";
    StripThree("+7 ", "(98", "8) ");
  }

  /** The line number "149-99-89" of the default phone strips to "1499989". */
  lemma StripDefaultLine(line: string)
    requires line == "149" + "-99" + "-89"
    ensures StripPhone(line) == "149" + "99" + "89"
  {
    assert StripPhone("149") == "149";
    assert StripPhone("-99") == "99";
    assert StripPhone("-89") == "89";
    StripThree("149", "-99", "-89");
  }

  /** The `tel:` link for the default phone. */
  lemma DefaultTel()
    ensures TelHref(DefaultPhone) == "tel:" + "+7988" + "1499989"
  {
    var code, line := "+7 " + "(98" + "8) ", "149" + "-99" + "-89";
    StripDefaultCode(code);
    StripDefaultLine(line);
    assert DefaultPhone == code + line;
    StripAppend(code, line);
  }

  /** The `mailto:` link for the default address. */
  lemma DefaultMailto()
    ensures MailtoHref(DefaultEmail) == "mailto:mashtabss@mail.ru"
  {
  }
}
