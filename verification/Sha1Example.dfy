/** The example of appendix A of FIPS PUB 180-1: the digest of the three octets "abc", step by step.  A wrong rotation,
    constant, initial value or octet order anywhere would show here. */
module Sha1Example {
  import opened Sha1

  const ABC: seq<Octet> := [0x61, 0x62, 0x63]

  /** Its one block. */
  ghost predicate IsBlock(words: seq<Word>) {
    |words| == 16 && words[0] == 0x61626380 && words[15] == 0x00000018 && forall t :: 0 < t < 15 ==> words[t] == 0
  }

  // ---------- The schedule ----------

  lemma Later(words: seq<Word>, t: nat, a: Word, b: Word, c: Word, d: Word, w: Word)
    requires |words| == 16 && t >= 16 && w == Mixed(a, b, c, d)
    requires W(words, t - 3) == a && W(words, t - 8) == b && W(words, t - 14) == c && W(words, t - 16) == d
    ensures W(words, t) == w
  {
  }

  lemma Words16On(words: seq<Word>)
    requires IsBlock(words)
    ensures W(words, 16) == 0xC2C4C700 && W(words, 17) == 0x00000000
    ensures W(words, 18) == 0x00000030 && W(words, 19) == 0x85898E01
    ensures W(words, 20) == 0x00000000 && W(words, 21) == 0x00000060
    ensures W(words, 22) == 0x0B131C03 && W(words, 23) == 0x00000030
    ensures W(words, 24) == 0x85898EC1 && W(words, 25) == 0x16263806
    ensures W(words, 26) == 0x00000000 && W(words, 27) == 0x00000180
    ensures W(words, 28) == 0x2C4C700C && W(words, 29) == 0x000000F0
    ensures W(words, 30) == 0x93AFB507 && W(words, 31) == 0x5898E048
  {
    Later(words, 16, 0x00000000, 0x00000000, 0x00000000, 0x61626380, 0xC2C4C700);
    Later(words, 17, 0x00000000, 0x00000000, 0x00000000, 0x00000000, 0x00000000);
    Later(words, 18, 0x00000018, 0x00000000, 0x00000000, 0x00000000, 0x00000030);
    Later(words, 19, 0xC2C4C700, 0x00000000, 0x00000000, 0x00000000, 0x85898E01);
    Later(words, 20, 0x00000000, 0x00000000, 0x00000000, 0x00000000, 0x00000000);
    Later(words, 21, 0x00000030, 0x00000000, 0x00000000, 0x00000000, 0x00000060);
    Later(words, 22, 0x85898E01, 0x00000000, 0x00000000, 0x00000000, 0x0B131C03);
    Later(words, 23, 0x00000000, 0x00000018, 0x00000000, 0x00000000, 0x00000030);
    Later(words, 24, 0x00000060, 0xC2C4C700, 0x00000000, 0x00000000, 0x85898EC1);
    Later(words, 25, 0x0B131C03, 0x00000000, 0x00000000, 0x00000000, 0x16263806);
    Later(words, 26, 0x00000030, 0x00000030, 0x00000000, 0x00000000, 0x00000000);
    Later(words, 27, 0x85898EC1, 0x85898E01, 0x00000000, 0x00000000, 0x00000180);
    Later(words, 28, 0x16263806, 0x00000000, 0x00000000, 0x00000000, 0x2C4C700C);
    Later(words, 29, 0x00000000, 0x00000060, 0x00000018, 0x00000000, 0x000000F0);
    Later(words, 30, 0x00000180, 0x0B131C03, 0xC2C4C700, 0x00000000, 0x93AFB507);
    Later(words, 31, 0x2C4C700C, 0x00000030, 0x00000000, 0x00000018, 0x5898E048);
  }

  lemma Words32On(words: seq<Word>)
    requires IsBlock(words)
    ensures W(words, 32) == 0x8E9A9202 && W(words, 33) == 0x00000600
    ensures W(words, 34) == 0xB131C0F0 && W(words, 35) == 0x16263BC6
    ensures W(words, 36) == 0x4EBED41E && W(words, 37) == 0x626380A1
    ensures W(words, 38) == 0x16263806 && W(words, 39) == 0x000018C0
    ensures W(words, 40) == 0xD2E138C4 && W(words, 41) == 0x00000F00
    ensures W(words, 42) == 0x3AFB5079 && W(words, 43) == 0x898E04E5
    ensures W(words, 44) == 0xE2BA3C2B && W(words, 45) == 0x000060C0
    ensures W(words, 46) == 0x053A37CD && W(words, 47) == 0x74458547
  {
    Words16On(words);
    Later(words, 32, 0x000000F0, 0x85898EC1, 0x00000030, 0xC2C4C700, 0x8E9A9202);
    Later(words, 33, 0x93AFB507, 0x16263806, 0x85898E01, 0x00000000, 0x00000600);
    Later(words, 34, 0x5898E048, 0x00000000, 0x00000000, 0x00000030, 0xB131C0F0);
    Later(words, 35, 0x8E9A9202, 0x00000180, 0x00000060, 0x85898E01, 0x16263BC6);
    Later(words, 36, 0x00000600, 0x2C4C700C, 0x0B131C03, 0x00000000, 0x4EBED41E);
    Later(words, 37, 0xB131C0F0, 0x000000F0, 0x00000030, 0x00000060, 0x626380A1);
    Later(words, 38, 0x16263BC6, 0x93AFB507, 0x85898EC1, 0x0B131C03, 0x16263806);
    Later(words, 39, 0x4EBED41E, 0x5898E048, 0x16263806, 0x00000030, 0x000018C0);
    Later(words, 40, 0x626380A1, 0x8E9A9202, 0x00000000, 0x85898EC1, 0xD2E138C4);
    Later(words, 41, 0x16263806, 0x00000600, 0x00000180, 0x16263806, 0x00000F00);
    Later(words, 42, 0x000018C0, 0xB131C0F0, 0x2C4C700C, 0x00000000, 0x3AFB5079);
    Later(words, 43, 0xD2E138C4, 0x16263BC6, 0x000000F0, 0x00000180, 0x898E04E5);
    Later(words, 44, 0x00000F00, 0x4EBED41E, 0x93AFB507, 0x2C4C700C, 0xE2BA3C2B);
    Later(words, 45, 0x3AFB5079, 0x626380A1, 0x5898E048, 0x000000F0, 0x000060C0);
    Later(words, 46, 0x898E04E5, 0x16263806, 0x8E9A9202, 0x93AFB507, 0x053A37CD);
    Later(words, 47, 0xE2BA3C2B, 0x000018C0, 0x00000600, 0x5898E048, 0x74458547);
  }

  lemma Words48On(words: seq<Word>)
    requires IsBlock(words)
    ensures W(words, 48) == 0xDA9415ED && W(words, 49) == 0x26380A16
    ensures W(words, 50) == 0x626383A1 && W(words, 51) == 0x4EBF54DE
    ensures W(words, 52) == 0x3835B44B && W(words, 53) == 0x0000F600
    ensures W(words, 54) == 0x1E84C7A3 && W(words, 55) == 0x98E04D98
    ensures W(words, 56) == 0x651D16A0 && W(words, 57) == 0x62658CA1
    ensures W(words, 58) == 0x458544D6 && W(words, 59) == 0x44584CB7
    ensures W(words, 60) == 0x7BA06619 && W(words, 61) == 0x6380AEA2
    ensures W(words, 62) == 0x0AE55269 && W(words, 63) == 0x627B49A1
  {
    Words32On(words);
    Later(words, 48, 0x000060C0, 0xD2E138C4, 0xB131C0F0, 0x8E9A9202, 0xDA9415ED);
    Later(words, 49, 0x053A37CD, 0x00000F00, 0x16263BC6, 0x00000600, 0x26380A16);
    Later(words, 50, 0x74458547, 0x3AFB5079, 0x4EBED41E, 0xB131C0F0, 0x626383A1);
    Later(words, 51, 0xDA9415ED, 0x898E04E5, 0x626380A1, 0x16263BC6, 0x4EBF54DE);
    Later(words, 52, 0x26380A16, 0xE2BA3C2B, 0x16263806, 0x4EBED41E, 0x3835B44B);
    Later(words, 53, 0x626383A1, 0x000060C0, 0x000018C0, 0x626380A1, 0x0000F600);
    Later(words, 54, 0x4EBF54DE, 0x053A37CD, 0xD2E138C4, 0x16263806, 0x1E84C7A3);
    Later(words, 55, 0x3835B44B, 0x74458547, 0x00000F00, 0x000018C0, 0x98E04D98);
    Later(words, 56, 0x0000F600, 0xDA9415ED, 0x3AFB5079, 0xD2E138C4, 0x651D16A0);
    Later(words, 57, 0x1E84C7A3, 0x26380A16, 0x898E04E5, 0x00000F00, 0x62658CA1);
    Later(words, 58, 0x98E04D98, 0x626383A1, 0xE2BA3C2B, 0x3AFB5079, 0x458544D6);
    Later(words, 59, 0x651D16A0, 0x4EBF54DE, 0x000060C0, 0x898E04E5, 0x44584CB7);
    Later(words, 60, 0x62658CA1, 0x3835B44B, 0x053A37CD, 0xE2BA3C2B, 0x7BA06619);
    Later(words, 61, 0x458544D6, 0x0000F600, 0x74458547, 0x000060C0, 0x6380AEA2);
    Later(words, 62, 0x44584CB7, 0x1E84C7A3, 0xDA9415ED, 0x053A37CD, 0x0AE55269);
    Later(words, 63, 0x7BA06619, 0x98E04D98, 0x26380A16, 0x74458547, 0x627B49A1);
  }

  lemma Words64On(words: seq<Word>)
    requires IsBlock(words)
    ensures W(words, 64) == 0x7CD45C9D && W(words, 65) == 0x000F0000
    ensures W(words, 66) == 0xFB50753A && W(words, 67) == 0xEC6765E8
    ensures W(words, 68) == 0xBA3C2BE2 && W(words, 69) == 0x0060C000
    ensures W(words, 70) == 0x3A37CD05 && W(words, 71) == 0x458546F4
    ensures W(words, 72) == 0xB8599DD6 && W(words, 73) == 0x380A1A26
    ensures W(words, 74) == 0x01E02203 && W(words, 75) == 0xE7CC3456
    ensures W(words, 76) == 0xE6E60B69 && W(words, 77) == 0x00F60A00
    ensures W(words, 78) == 0x5795EF4F && W(words, 79) == 0x822E0879
  {
    Words48On(words);
    Later(words, 64, 0x6380AEA2, 0x651D16A0, 0x626383A1, 0xDA9415ED, 0x7CD45C9D);
    Later(words, 65, 0x0AE55269, 0x62658CA1, 0x4EBF54DE, 0x26380A16, 0x000F0000);
    Later(words, 66, 0x627B49A1, 0x458544D6, 0x3835B44B, 0x626383A1, 0xFB50753A);
    Later(words, 67, 0x7CD45C9D, 0x44584CB7, 0x0000F600, 0x4EBF54DE, 0xEC6765E8);
    Later(words, 68, 0x000F0000, 0x7BA06619, 0x1E84C7A3, 0x3835B44B, 0xBA3C2BE2);
    Later(words, 69, 0xFB50753A, 0x6380AEA2, 0x98E04D98, 0x0000F600, 0x0060C000);
    Later(words, 70, 0xEC6765E8, 0x0AE55269, 0x651D16A0, 0x1E84C7A3, 0x3A37CD05);
    Later(words, 71, 0xBA3C2BE2, 0x627B49A1, 0x62658CA1, 0x98E04D98, 0x458546F4);
    Later(words, 72, 0x0060C000, 0x7CD45C9D, 0x458544D6, 0x651D16A0, 0xB8599DD6);
    Later(words, 73, 0x3A37CD05, 0x000F0000, 0x44584CB7, 0x62658CA1, 0x380A1A26);
    Later(words, 74, 0x458546F4, 0xFB50753A, 0x7BA06619, 0x458544D6, 0x01E02203);
    Later(words, 75, 0xB8599DD6, 0xEC6765E8, 0x6380AEA2, 0x44584CB7, 0xE7CC3456);
    Later(words, 76, 0x380A1A26, 0xBA3C2BE2, 0x0AE55269, 0x7BA06619, 0xE6E60B69);
    Later(words, 77, 0x01E02203, 0x0060C000, 0x627B49A1, 0x6380AEA2, 0x00F60A00);
    Later(words, 78, 0xE7CC3456, 0x3A37CD05, 0x7CD45C9D, 0x0AE55269, 0x5795EF4F);
    Later(words, 79, 0xE6E60B69, 0x458546F4, 0x000F0000, 0x627B49A1, 0x822E0879);
  }

  // ---------- The steps ----------

  /** The state that the last five results make. */
  function After(a: Word, b: Word, c: Word, d: Word, e: Word): State {
    State(e, d, Rotl(30, c), Rotl(30, b), Rotl(30, a))
  }

  lemma Next(words: seq<Word>, t: nat, a: Word, b: Word, c: Word, d: Word, e: Word, w: Word, r: Word)
    requires |words| == 16 && Rounds(INITIAL, words, t) == After(a, b, c, d, e) && W(words, t) == w
    requires r == Temp(e, F(t, d, Rotl(30, c), Rotl(30, b)), Rotl(30, a), w, K(t))
    ensures Rounds(INITIAL, words, t + 1) == After(b, c, d, e, r)
  {
  }

  lemma Steps0On(words: seq<Word>)
    requires IsBlock(words)
    ensures Rounds(INITIAL, words, 10) == After(0x3FC7CA40, 0x993E30C1, 0x9E8C07D4, 0x4B6AE328, 0x8351F929)
  {
    Next(words, 0, 0x0F4B87C3, 0x40C951D8, 0x62EB73FA, 0xEFCDAB89, 0x67452301, 0x61626380, 0x0116FC33);
    Next(words, 1, 0x40C951D8, 0x62EB73FA, 0xEFCDAB89, 0x67452301, 0x0116FC33, 0x00000000, 0x8990536D);
    Next(words, 2, 0x62EB73FA, 0xEFCDAB89, 0x67452301, 0x0116FC33, 0x8990536D, 0x00000000, 0xA1390F08);
    Next(words, 3, 0xEFCDAB89, 0x67452301, 0x0116FC33, 0x8990536D, 0xA1390F08, 0x00000000, 0xCDD8E11B);
    Next(words, 4, 0x67452301, 0x0116FC33, 0x8990536D, 0xA1390F08, 0xCDD8E11B, 0x00000000, 0xCFD499DE);
    Next(words, 5, 0x0116FC33, 0x8990536D, 0xA1390F08, 0xCDD8E11B, 0xCFD499DE, 0x00000000, 0x3FC7CA40);
    Next(words, 6, 0x8990536D, 0xA1390F08, 0xCDD8E11B, 0xCFD499DE, 0x3FC7CA40, 0x00000000, 0x993E30C1);
    Next(words, 7, 0xA1390F08, 0xCDD8E11B, 0xCFD499DE, 0x3FC7CA40, 0x993E30C1, 0x00000000, 0x9E8C07D4);
    Next(words, 8, 0xCDD8E11B, 0xCFD499DE, 0x3FC7CA40, 0x993E30C1, 0x9E8C07D4, 0x00000000, 0x4B6AE328);
    Next(words, 9, 0xCFD499DE, 0x3FC7CA40, 0x993E30C1, 0x9E8C07D4, 0x4B6AE328, 0x00000000, 0x8351F929);
  }

  lemma Steps10On(words: seq<Word>)
    requires IsBlock(words)
    ensures Rounds(INITIAL, words, 20) == After(0x20BDD62F, 0x4E925823, 0x82AA6728, 0xDC64901D, 0xFD9E1D7D)
  {
    Steps0On(words);
    Words16On(words);
    Next(words, 10, 0x3FC7CA40, 0x993E30C1, 0x9E8C07D4, 0x4B6AE328, 0x8351F929, 0x00000000, 0xFBDA9E89);
    Next(words, 11, 0x993E30C1, 0x9E8C07D4, 0x4B6AE328, 0x8351F929, 0xFBDA9E89, 0x00000000, 0x63188FE4);
    Next(words, 12, 0x9E8C07D4, 0x4B6AE328, 0x8351F929, 0xFBDA9E89, 0x63188FE4, 0x00000000, 0x4607B664);
    Next(words, 13, 0x4B6AE328, 0x8351F929, 0xFBDA9E89, 0x63188FE4, 0x4607B664, 0x00000000, 0x9128F695);
    Next(words, 14, 0x8351F929, 0xFBDA9E89, 0x63188FE4, 0x4607B664, 0x9128F695, 0x00000000, 0x196BEE77);
    Next(words, 15, 0xFBDA9E89, 0x63188FE4, 0x4607B664, 0x9128F695, 0x196BEE77, 0x00000018, 0x20BDD62F);
    Next(words, 16, 0x63188FE4, 0x4607B664, 0x9128F695, 0x196BEE77, 0x20BDD62F, 0xC2C4C700, 0x4E925823);
    Next(words, 17, 0x4607B664, 0x9128F695, 0x196BEE77, 0x20BDD62F, 0x4E925823, 0x00000000, 0x82AA6728);
    Next(words, 18, 0x9128F695, 0x196BEE77, 0x20BDD62F, 0x4E925823, 0x82AA6728, 0x00000030, 0xDC64901D);
    Next(words, 19, 0x196BEE77, 0x20BDD62F, 0x4E925823, 0x82AA6728, 0xDC64901D, 0x85898E01, 0xFD9E1D7D);
  }

  lemma Steps20On(words: seq<Word>)
    requires IsBlock(words)
    ensures Rounds(INITIAL, words, 30) == After(0x48413BA4, 0xBE35FBD5, 0x4AA84D97, 0x8370B52E, 0xC5FBAF5D)
  {
    Steps10On(words);
    Words16On(words);
    Next(words, 20, 0x20BDD62F, 0x4E925823, 0x82AA6728, 0xDC64901D, 0xFD9E1D7D, 0x00000000, 0x1A37B0CA);
    Next(words, 21, 0x4E925823, 0x82AA6728, 0xDC64901D, 0xFD9E1D7D, 0x1A37B0CA, 0x00000060, 0x33A23BFC);
    Next(words, 22, 0x82AA6728, 0xDC64901D, 0xFD9E1D7D, 0x1A37B0CA, 0x33A23BFC, 0x0B131C03, 0x21283486);
    Next(words, 23, 0xDC64901D, 0xFD9E1D7D, 0x1A37B0CA, 0x33A23BFC, 0x21283486, 0x00000030, 0xD541F12D);
    Next(words, 24, 0xFD9E1D7D, 0x1A37B0CA, 0x33A23BFC, 0x21283486, 0xD541F12D, 0x85898EC1, 0xC7567DC6);
    Next(words, 25, 0x1A37B0CA, 0x33A23BFC, 0x21283486, 0xD541F12D, 0xC7567DC6, 0x16263806, 0x48413BA4);
    Next(words, 26, 0x33A23BFC, 0x21283486, 0xD541F12D, 0xC7567DC6, 0x48413BA4, 0x00000000, 0xBE35FBD5);
    Next(words, 27, 0x21283486, 0xD541F12D, 0xC7567DC6, 0x48413BA4, 0xBE35FBD5, 0x00000180, 0x4AA84D97);
    Next(words, 28, 0xD541F12D, 0xC7567DC6, 0x48413BA4, 0xBE35FBD5, 0x4AA84D97, 0x2C4C700C, 0x8370B52E);
    Next(words, 29, 0xC7567DC6, 0x48413BA4, 0xBE35FBD5, 0x4AA84D97, 0x8370B52E, 0x000000F0, 0xC5FBAF5D);
  }

  lemma Steps30On(words: seq<Word>)
    requires IsBlock(words)
    ensures Rounds(INITIAL, words, 40) == After(0xDCBBB0CB, 0x0F511FD8, 0xDC63973F, 0x4C986405, 0x32DE1CBA)
  {
    Steps20On(words);
    Words16On(words);
    Words32On(words);
    Next(words, 30, 0x48413BA4, 0xBE35FBD5, 0x4AA84D97, 0x8370B52E, 0xC5FBAF5D, 0x93AFB507, 0x1267B407);
    Next(words, 31, 0xBE35FBD5, 0x4AA84D97, 0x8370B52E, 0xC5FBAF5D, 0x1267B407, 0x5898E048, 0x3B845D33);
    Next(words, 32, 0x4AA84D97, 0x8370B52E, 0xC5FBAF5D, 0x1267B407, 0x3B845D33, 0x8E9A9202, 0x046FAA0A);
    Next(words, 33, 0x8370B52E, 0xC5FBAF5D, 0x1267B407, 0x3B845D33, 0x046FAA0A, 0x00000600, 0x2C0EBC11);
    Next(words, 34, 0xC5FBAF5D, 0x1267B407, 0x3B845D33, 0x046FAA0A, 0x2C0EBC11, 0xB131C0F0, 0x21796AD4);
    Next(words, 35, 0x1267B407, 0x3B845D33, 0x046FAA0A, 0x2C0EBC11, 0x21796AD4, 0x16263BC6, 0xDCBBB0CB);
    Next(words, 36, 0x3B845D33, 0x046FAA0A, 0x2C0EBC11, 0x21796AD4, 0xDCBBB0CB, 0x4EBED41E, 0x0F511FD8);
    Next(words, 37, 0x046FAA0A, 0x2C0EBC11, 0x21796AD4, 0xDCBBB0CB, 0x0F511FD8, 0x626380A1, 0xDC63973F);
    Next(words, 38, 0x2C0EBC11, 0x21796AD4, 0xDCBBB0CB, 0x0F511FD8, 0xDC63973F, 0x16263806, 0x4C986405);
    Next(words, 39, 0x21796AD4, 0xDCBBB0CB, 0x0F511FD8, 0xDC63973F, 0x4C986405, 0x000018C0, 0x32DE1CBA);
  }

  lemma Steps40On(words: seq<Word>)
    requires IsBlock(words)
    ensures Rounds(INITIAL, words, 50) == After(0x1C51E1F2, 0xA01B846C, 0xBEAD02CA, 0xBAF39337, 0x120731C5)
  {
    Steps30On(words);
    Words32On(words);
    Words48On(words);
    Next(words, 40, 0xDCBBB0CB, 0x0F511FD8, 0xDC63973F, 0x4C986405, 0x32DE1CBA, 0xD2E138C4, 0xFC87DEDF);
    Next(words, 41, 0x0F511FD8, 0xDC63973F, 0x4C986405, 0x32DE1CBA, 0xFC87DEDF, 0x00000F00, 0x970A0D5C);
    Next(words, 42, 0xDC63973F, 0x4C986405, 0x32DE1CBA, 0xFC87DEDF, 0x970A0D5C, 0x3AFB5079, 0x7F193DC5);
    Next(words, 43, 0x4C986405, 0x32DE1CBA, 0xFC87DEDF, 0x970A0D5C, 0x7F193DC5, 0x898E04E5, 0xEE1B1AAF);
    Next(words, 44, 0x32DE1CBA, 0xFC87DEDF, 0x970A0D5C, 0x7F193DC5, 0xEE1B1AAF, 0xE2BA3C2B, 0x40F28E09);
    Next(words, 45, 0xFC87DEDF, 0x970A0D5C, 0x7F193DC5, 0xEE1B1AAF, 0x40F28E09, 0x000060C0, 0x1C51E1F2);
    Next(words, 46, 0x970A0D5C, 0x7F193DC5, 0xEE1B1AAF, 0x40F28E09, 0x1C51E1F2, 0x053A37CD, 0xA01B846C);
    Next(words, 47, 0x7F193DC5, 0xEE1B1AAF, 0x40F28E09, 0x1C51E1F2, 0xA01B846C, 0x74458547, 0xBEAD02CA);
    Next(words, 48, 0xEE1B1AAF, 0x40F28E09, 0x1C51E1F2, 0xA01B846C, 0xBEAD02CA, 0xDA9415ED, 0xBAF39337);
    Next(words, 49, 0x40F28E09, 0x1C51E1F2, 0xA01B846C, 0xBEAD02CA, 0xBAF39337, 0x26380A16, 0x120731C5);
  }

  lemma Steps50On(words: seq<Word>)
    requires IsBlock(words)
    ensures Rounds(INITIAL, words, 60) == After(0x5E6456AF, 0xC846093F, 0xD262FF50, 0x09D785FD, 0x3F52DE5A)
  {
    Steps40On(words);
    Words48On(words);
    Next(words, 50, 0x1C51E1F2, 0xA01B846C, 0xBEAD02CA, 0xBAF39337, 0x120731C5, 0x626383A1, 0x641DB2CE);
    Next(words, 51, 0xA01B846C, 0xBEAD02CA, 0xBAF39337, 0x120731C5, 0x641DB2CE, 0x4EBF54DE, 0x3847AD66);
    Next(words, 52, 0xBEAD02CA, 0xBAF39337, 0x120731C5, 0x641DB2CE, 0x3847AD66, 0x3835B44B, 0xE490436D);
    Next(words, 53, 0xBAF39337, 0x120731C5, 0x641DB2CE, 0x3847AD66, 0xE490436D, 0x0000F600, 0x27E9F1D8);
    Next(words, 54, 0x120731C5, 0x641DB2CE, 0x3847AD66, 0xE490436D, 0x27E9F1D8, 0x1E84C7A3, 0x7B71F76D);
    Next(words, 55, 0x641DB2CE, 0x3847AD66, 0xE490436D, 0x27E9F1D8, 0x7B71F76D, 0x98E04D98, 0x5E6456AF);
    Next(words, 56, 0x3847AD66, 0xE490436D, 0x27E9F1D8, 0x7B71F76D, 0x5E6456AF, 0x651D16A0, 0xC846093F);
    Next(words, 57, 0xE490436D, 0x27E9F1D8, 0x7B71F76D, 0x5E6456AF, 0xC846093F, 0x62658CA1, 0xD262FF50);
    Next(words, 58, 0x27E9F1D8, 0x7B71F76D, 0x5E6456AF, 0xC846093F, 0xD262FF50, 0x458544D6, 0x09D785FD);
    Next(words, 59, 0x7B71F76D, 0x5E6456AF, 0xC846093F, 0xD262FF50, 0x09D785FD, 0x44584CB7, 0x3F52DE5A);
  }

  lemma Steps60On(words: seq<Word>)
    requires IsBlock(words)
    ensures Rounds(INITIAL, words, 70) == After(0x101655F9, 0x0C3DF2B4, 0x78DD4D2B, 0x497093C0, 0x3F2588C2)
  {
    Steps50On(words);
    Words48On(words);
    Words64On(words);
    Next(words, 60, 0x5E6456AF, 0xC846093F, 0xD262FF50, 0x09D785FD, 0x3F52DE5A, 0x7BA06619, 0xD756C147);
    Next(words, 61, 0xC846093F, 0xD262FF50, 0x09D785FD, 0x3F52DE5A, 0xD756C147, 0x6380AEA2, 0x548C9CB2);
    Next(words, 62, 0xD262FF50, 0x09D785FD, 0x3F52DE5A, 0xD756C147, 0x548C9CB2, 0x0AE55269, 0xB66C020B);
    Next(words, 63, 0x09D785FD, 0x3F52DE5A, 0xD756C147, 0x548C9CB2, 0xB66C020B, 0x627B49A1, 0x6B61C9E1);
    Next(words, 64, 0x3F52DE5A, 0xD756C147, 0x548C9CB2, 0xB66C020B, 0x6B61C9E1, 0x7CD45C9D, 0x19DFA7AC);
    Next(words, 65, 0xD756C147, 0x548C9CB2, 0xB66C020B, 0x6B61C9E1, 0x19DFA7AC, 0x000F0000, 0x101655F9);
    Next(words, 66, 0x548C9CB2, 0xB66C020B, 0x6B61C9E1, 0x19DFA7AC, 0x101655F9, 0xFB50753A, 0x0C3DF2B4);
    Next(words, 67, 0xB66C020B, 0x6B61C9E1, 0x19DFA7AC, 0x101655F9, 0x0C3DF2B4, 0xEC6765E8, 0x78DD4D2B);
    Next(words, 68, 0x6B61C9E1, 0x19DFA7AC, 0x101655F9, 0x0C3DF2B4, 0x78DD4D2B, 0xBA3C2BE2, 0x497093C0);
    Next(words, 69, 0x19DFA7AC, 0x101655F9, 0x0C3DF2B4, 0x78DD4D2B, 0x497093C0, 0x0060C000, 0x3F2588C2);
  }

  lemma Steps70On(words: seq<Word>)
    requires IsBlock(words)
    ensures Rounds(INITIAL, words, 80) == After(0x63F7DAB7, 0xA079B7D9, 0x860D21CC, 0x5738D5E1, 0x42541B35)
  {
    Steps60On(words);
    Words64On(words);
    Next(words, 70, 0x101655F9, 0x0C3DF2B4, 0x78DD4D2B, 0x497093C0, 0x3F2588C2, 0x3A37CD05, 0xC199F8C7);
    Next(words, 71, 0x0C3DF2B4, 0x78DD4D2B, 0x497093C0, 0x3F2588C2, 0xC199F8C7, 0x458546F4, 0x39859DE7);
    Next(words, 72, 0x78DD4D2B, 0x497093C0, 0x3F2588C2, 0xC199F8C7, 0x39859DE7, 0xB8599DD6, 0xEDB42DE4);
    Next(words, 73, 0x497093C0, 0x3F2588C2, 0xC199F8C7, 0x39859DE7, 0xEDB42DE4, 0x380A1A26, 0x11793F6F);
    Next(words, 74, 0x3F2588C2, 0xC199F8C7, 0x39859DE7, 0xEDB42DE4, 0x11793F6F, 0x01E02203, 0x5EE76897);
    Next(words, 75, 0xC199F8C7, 0x39859DE7, 0xEDB42DE4, 0x11793F6F, 0x5EE76897, 0xE7CC3456, 0x63F7DAB7);
    Next(words, 76, 0x39859DE7, 0xEDB42DE4, 0x11793F6F, 0x5EE76897, 0x63F7DAB7, 0xE6E60B69, 0xA079B7D9);
    Next(words, 77, 0xEDB42DE4, 0x11793F6F, 0x5EE76897, 0x63F7DAB7, 0xA079B7D9, 0x00F60A00, 0x860D21CC);
    Next(words, 78, 0x11793F6F, 0x5EE76897, 0x63F7DAB7, 0xA079B7D9, 0x860D21CC, 0x5795EF4F, 0x5738D5E1);
    Next(words, 79, 0x5EE76897, 0x63F7DAB7, 0xA079B7D9, 0x860D21CC, 0x5738D5E1, 0x822E0879, 0x42541B35);
  }

  // ---------- The digest ----------

  lemma LengthOfExample()
    ensures Put32(0) == [0, 0, 0, 0] && Put32(24) == [0, 0, 0, 24]
  {
  }

  lemma PadOfExample() returns (b: seq<Octet>)
    ensures b == Pad(ABC) && |b| == 64 && b[0] == 0x61 && b[1] == 0x62 && b[2] == 0x63 && b[3] == 0x80 && b[63] == 24
    ensures forall i :: 4 <= i < 63 ==> b[i] == 0
  {
    b := Pad(ABC);
    PadTail(ABC, 0, 3, 0, 24);
    LengthOfExample();
    OctetsOfExample(b, Put32(0), Put32(24));
  }

  lemma OctetsOfExample(b: seq<Octet>, high: seq<Octet>, low: seq<Octet>)
    requires b[0..] == ABC[0..] + [0x80] + (seq(52, _ => 0) + (high + low))
    requires high == [0, 0, 0, 0] && low == [0, 0, 0, 24]
    ensures |b| == 64 && b[0] == 0x61 && b[1] == 0x62 && b[2] == 0x63 && b[3] == 0x80 && b[63] == 24
    ensures forall i :: 4 <= i < 63 ==> b[i] == 0
  {
    var zeros, c := seq(52, _ => 0), b[0..];
    assert b == c;
    forall i | 4 <= i < 63 ensures c[i] == 0 { assert i < 56 ==> c[i] == zeros[i - 4]; }
  }

  lemma WordOfZeros(b: seq<Octet>, at: nat)
    requires at + 4 <= |b| && b[at] == b[at + 1] == b[at + 2] == 0
    ensures WordOf(b, at) == b[at + 3] as Word
  {
  }

  lemma BlockOfExample() returns (words: seq<Word>)
    ensures |Pad(ABC)| == 64 && words == Words(Pad(ABC), 0) && IsBlock(words)
  {
    var b := PadOfExample();
    words := Words(b, 0);
    assert words[0] == WordOf(b, 0) == FourOctets(0x61, 0x62, 0x63, 0x80) == 0x61626380;
    forall t | 0 < t < 16 ensures words[t] == b[4 * t + 3] as Word { WordOfZeros(b, 4 * t); }
  }

  lemma DigestOfExample()
    ensures Digest([0x61, 0x62, 0x63]) == State(0xA9993E36, 0x4706816A, 0xBA3E2571, 0x7850C26C, 0x9CD0D89D)
  {
    var words := BlockOfExample();
    Steps70On(words);
    DigestIs(ABC, 1);
    assert Hash(Pad(ABC), 1) == Compress(INITIAL, words);
  }
}
