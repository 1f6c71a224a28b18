/**
 * The evaluated `kTypeId` constants of the exception classes agree with the
 * `IMPLEMENT_RTTI` declarations: each id is the hash of "/" + name chained onto
 * the base's id, evaluated one word of the name at a time.
 */
module ExceptionTypeIds {
  import Rtti
  import opened Exceptions

  /** "/" hashed onto 0x078F_342C_1208_6EC4. */
  lemma RuntimeExceptionPart0()
    ensures Rtti.NoNul(Rtti.Slash) && Rtti.RTTIHash(Rtti.Slash, 0x078F_342C_1208_6EC4) == 0xE0C4_91E2_A454_7951
  {
    Rtti.RTTIHashTrace(Rtti.Slash, [
      0x078F_342C_1208_6EC4, 0xE0C4_91E2_A454_7951
    ]);
  }

  /** "Runtime" hashed onto 0xE0C4_91E2_A454_7951. */
  lemma RuntimeExceptionPart1()
    ensures Rtti.NoNul(WordRuntime) && Rtti.RTTIHash(WordRuntime, 0xE0C4_91E2_A454_7951) == 0xCD83_BC23_F009_E237
  {
    Rtti.RTTIHashTrace(WordRuntime, [
      0xE0C4_91E2_A454_7951, 0x427C_E71D_3B89_A019, 0x83DD_22AC_2ADB_9784,
      0xEC59_D48C_D323_229E, 0xBFC7_154A_C4B4_539E, 0x939D_250C_3E6A_ACB5,
      0x3EB2_CBCE_0F43_B308, 0xCD83_BC23_F009_E237
    ]);
  }

  /** "Exception" hashed onto 0xCD83_BC23_F009_E237. */
  lemma RuntimeExceptionPart2()
    ensures Rtti.NoNul(WordException) && Rtti.RTTIHash(WordException, 0xCD83_BC23_F009_E237) == 0xE011_8823_2E2D_6190
  {
    Rtti.RTTIHashTrace(WordException, [
      0xCD83_BC23_F009_E237, 0x40BB_2310_E0CB_C7B6, 0xC9C4_63AD_FA44_830A,
      0x1D38_C9A0_426B_4B6B, 0x12C9_A950_DC50_88CA, 0x3D33_6E66_5CD8_540E,
      0xD6B9_11EF_C397_8B4E, 0x7404_A169_5A81_7345, 0xA551_7004_C9F6_B05E,
      0xE011_8823_2E2D_6190
    ]);
  }

  /** `RuntimeException::kTypeId = RTTIHash("/RuntimeException", RTTI::kTypeId)` evaluates to `TypeIdOf(RuntimeException)`. */
  lemma RuntimeExceptionTypeIdIsHash()
    ensures Rtti.RTTIHash(Rtti.Slash + Name(RuntimeException), BaseTypeId(RuntimeException)) == TypeIdOf(RuntimeException)
  {
    RuntimeExceptionPart0();
    RuntimeExceptionPart1();
    RuntimeExceptionPart2();
    Rtti.RTTIHashAppend(WordRuntime, WordException, 0xE0C4_91E2_A454_7951);
    Rtti.RTTIHashAppend(Rtti.Slash, WordRuntime + WordException, 0x078F_342C_1208_6EC4);
  }

  /** "/" hashed onto 0xE011_8823_2E2D_6190. */
  lemma IllegalStateExceptionPart0()
    ensures Rtti.NoNul(Rtti.Slash) && Rtti.RTTIHash(Rtti.Slash, 0xE011_8823_2E2D_6190) == 0xEB2C_12C7_771D_178D
  {
    Rtti.RTTIHashTrace(Rtti.Slash, [
      0xE011_8823_2E2D_6190, 0xEB2C_12C7_771D_178D
    ]);
  }

  /** "Illegal" hashed onto 0xEB2C_12C7_771D_178D. */
  lemma IllegalStateExceptionPart1()
    ensures Rtti.NoNul(WordIllegal) && Rtti.RTTIHash(WordIllegal, 0xEB2C_12C7_771D_178D) == 0x04BA_DB73_EBD5_CF91
  {
    Rtti.RTTIHashTrace(WordIllegal, [
      0xEB2C_12C7_771D_178D, 0xB8FB_ACEF_666F_620C, 0xC309_3ACB_0F44_2920,
      0xACD8_330A_F0D2_2C24, 0x858A_FC97_3521_3273, 0x0C5D_48EF_4768_17FC,
      0x6A9A_8B96_55E0_1FC7, 0x04BA_DB73_EBD5_CF91
    ]);
  }

  /** "State" hashed onto 0x04BA_DB73_EBD5_CF91. */
  lemma IllegalStateExceptionPart2()
    ensures Rtti.NoNul(WordState) && Rtti.RTTIHash(WordState, 0x04BA_DB73_EBD5_CF91) == 0x8D3C_BE29_CA69_8B22
  {
    Rtti.RTTIHashTrace(WordState, [
      0x04BA_DB73_EBD5_CF91, 0xDF52_A7F9_BC50_06A6, 0xC97A_3F5A_FBFB_96D6,
      0x5650_5E9A_2C81_18F5, 0x2BA9_40F9_9F5C_A333, 0x8D3C_BE29_CA69_8B22
    ]);
  }

  /** "Exception" hashed onto 0x8D3C_BE29_CA69_8B22. */
  lemma IllegalStateExceptionPart3()
    ensures Rtti.NoNul(WordException) && Rtti.RTTIHash(WordException, 0x8D3C_BE29_CA69_8B22) == 0x3A8A_528B_CC16_07EB
  {
    Rtti.RTTIHashTrace(WordException, [
      0x8D3C_BE29_CA69_8B22, 0x67C2_8802_F157_E005, 0xA76D_9A00_1852_7467,
      0xD1B0_B229_541B_22CC, 0x6A61_6539_EA1B_E52B, 0xDF64_5C68_CD66_B9A1,
      0xFE42_DB15_058D_C4EF, 0x995E_CAB8_6FE4_EFB2, 0x8102_5466_2203_9487,
      0x3A8A_528B_CC16_07EB
    ]);
  }

  /** `IllegalStateException::kTypeId = RTTIHash("/IllegalStateException", RuntimeException::kTypeId)` evaluates to `TypeIdOf(IllegalStateException)`. */
  lemma IllegalStateExceptionTypeIdIsHash()
    ensures Rtti.RTTIHash(Rtti.Slash + Name(IllegalStateException), BaseTypeId(IllegalStateException)) == TypeIdOf(IllegalStateException)
  {
    IllegalStateExceptionPart0();
    IllegalStateExceptionPart1();
    IllegalStateExceptionPart2();
    IllegalStateExceptionPart3();
    Rtti.RTTIHashAppend(WordState, WordException, 0x04BA_DB73_EBD5_CF91);
    Rtti.RTTIHashAppend(WordIllegal, WordState + WordException, 0xEB2C_12C7_771D_178D);
    Rtti.RTTIHashAppend(Rtti.Slash, WordIllegal + (WordState + WordException), 0xE011_8823_2E2D_6190);
  }

  /** "/" hashed onto 0xE011_8823_2E2D_6190. */
  lemma IllegalArgumentExceptionPart0()
    ensures Rtti.NoNul(Rtti.Slash) && Rtti.RTTIHash(Rtti.Slash, 0xE011_8823_2E2D_6190) == 0xEB2C_12C7_771D_178D
  {
    Rtti.RTTIHashTrace(Rtti.Slash, [
      0xE011_8823_2E2D_6190, 0xEB2C_12C7_771D_178D
    ]);
  }

  /** "Illegal" hashed onto 0xEB2C_12C7_771D_178D. */
  lemma IllegalArgumentExceptionPart1()
    ensures Rtti.NoNul(WordIllegal) && Rtti.RTTIHash(WordIllegal, 0xEB2C_12C7_771D_178D) == 0x04BA_DB73_EBD5_CF91
  {
    Rtti.RTTIHashTrace(WordIllegal, [
      0xEB2C_12C7_771D_178D, 0xB8FB_ACEF_666F_620C, 0xC309_3ACB_0F44_2920,
      0xACD8_330A_F0D2_2C24, 0x858A_FC97_3521_3273, 0x0C5D_48EF_4768_17FC,
      0x6A9A_8B96_55E0_1FC7, 0x04BA_DB73_EBD5_CF91
    ]);
  }

  /** "Argument" hashed onto 0x04BA_DB73_EBD5_CF91. */
  lemma IllegalArgumentExceptionPart2()
    ensures Rtti.NoNul(WordArgument) && Rtti.RTTIHash(WordArgument, 0x04BA_DB73_EBD5_CF91) == 0x037F_2A15_2BF8_79C2
  {
    Rtti.RTTIHashTrace(WordArgument, [
      0x04BA_DB73_EBD5_CF91, 0xDF52_B5F9_BC50_1E70, 0xC9A9_395A_FC22_FD66,
      0xCD89_769A_6F73_E8B3, 0xB47D_4E6B_61F4_8872, 0xA574_5F77_7283_4CAD,
      0xA80A_FFF7_951B_77D8, 0xA628_A7B2_5DAC_6A42, 0x037F_2A15_2BF8_79C2
    ]);
  }

  /** "Exception" hashed onto 0x037F_2A15_2BF8_79C2. */
  lemma IllegalArgumentExceptionPart3()
    ensures Rtti.NoNul(WordException) && Rtti.RTTIHash(WordException, 0x037F_2A15_2BF8_79C2) == 0x4826_ED46_FBB4_0C4B
  {
    Rtti.RTTIHashTrace(WordException, [
      0x037F_2A15_2BF8_79C2, 0xE98E_08F9_B736_8065, 0x12D9_5D52_519B_B147,
      0xA30A_B6E0_AB8E_002C, 0x9935_08C3_824A_7C0B, 0x9F9A_5F36_6491_8501,
      0xC4D5_3E6C_E345_C5CF, 0xBC1E_B906_2F8E_D912, 0x370D_E282_CFBB_8F67,
      0x4826_ED46_FBB4_0C4B
    ]);
  }

  /** `IllegalArgumentException::kTypeId = RTTIHash("/IllegalArgumentException", RuntimeException::kTypeId)` evaluates to `TypeIdOf(IllegalArgumentException)`. */
  lemma IllegalArgumentExceptionTypeIdIsHash()
    ensures Rtti.RTTIHash(Rtti.Slash + Name(IllegalArgumentException), BaseTypeId(IllegalArgumentException)) == TypeIdOf(IllegalArgumentException)
  {
    IllegalArgumentExceptionPart0();
    IllegalArgumentExceptionPart1();
    IllegalArgumentExceptionPart2();
    IllegalArgumentExceptionPart3();
    Rtti.RTTIHashAppend(WordArgument, WordException, 0x04BA_DB73_EBD5_CF91);
    Rtti.RTTIHashAppend(WordIllegal, WordArgument + WordException, 0xEB2C_12C7_771D_178D);
    Rtti.RTTIHashAppend(Rtti.Slash, WordIllegal + (WordArgument + WordException), 0xE011_8823_2E2D_6190);
  }

  /** "/" hashed onto 0xE011_8823_2E2D_6190. */
  lemma NullPointerExceptionPart0()
    ensures Rtti.NoNul(Rtti.Slash) && Rtti.RTTIHash(Rtti.Slash, 0xE011_8823_2E2D_6190) == 0xEB2C_12C7_771D_178D
  {
    Rtti.RTTIHashTrace(Rtti.Slash, [
      0xE011_8823_2E2D_6190, 0xEB2C_12C7_771D_178D
    ]);
  }

  /** "Null" hashed onto 0xEB2C_12C7_771D_178D. */
  lemma NullPointerExceptionPart1()
    ensures Rtti.NoNul(WordNull) && Rtti.RTTIHash(WordNull, 0xEB2C_12C7_771D_178D) == 0x8734_248C_6533_62FC
  {
    Rtti.RTTIHashTrace(WordNull, [
      0xEB2C_12C7_771D_178D, 0xB8FB_ABEF_666F_6059, 0xC305_53CB_0F40_6AC4,
      0xA278_0A0A_EA75_3B78, 0x8734_248C_6533_62FC
    ]);
  }

  /** "Pointer" hashed onto 0x8734_248C_6533_62FC. */
  lemma NullPointerExceptionPart2()
    ensures Rtti.NoNul(WordPointer) && Rtti.RTTIHash(WordPointer, 0x8734_248C_6533_62FC) == 0x2E47_5D58_0889_7505
  {
    Rtti.RTTIHashTrace(WordPointer, [
      0x8734_248C_6533_62FC, 0xF0FC_C68F_F650_AA44, 0xCE2F_919F_8B11_2711,
      0x6BFB_EA19_4E26_10E8, 0xA31F_4EFF_CAAE_13B2, 0xDC47_02A5_65CB_9972,
      0x1842_960B_F8F5_2215, 0x2E47_5D58_0889_7505
    ]);
  }

  /** "Exception" hashed onto 0x2E47_5D58_0889_7505. */
  lemma NullPointerExceptionPart3()
    ensures Rtti.NoNul(WordException) && Rtti.RTTIHash(WordException, 0x2E47_5D58_0889_7505) == 0x51C5_2744_5615_66D6
  {
    Rtti.RTTIHashTrace(WordException, [
      0x2E47_5D58_0889_7505, 0x2CB8_DC96_8192_3BC0, 0x905A_8BBE_2B7B_79A8,
      0xC555_3F23_E2CF_F3F1, 0x1FCD_DDFA_675A_E47C, 0x65B4_3C7D_9F71_8064,
      0x42C2_D975_EDDC_9B30, 0x4DB2_DC63_2DDB_F83B, 0xE2E4_D086_ECC6_F6BC,
      0x51C5_2744_5615_66D6
    ]);
  }

  /** `NullPointerException::kTypeId = RTTIHash("/NullPointerException", RuntimeException::kTypeId)` evaluates to `TypeIdOf(NullPointerException)`. */
  lemma NullPointerExceptionTypeIdIsHash()
    ensures Rtti.RTTIHash(Rtti.Slash + Name(NullPointerException), BaseTypeId(NullPointerException)) == TypeIdOf(NullPointerException)
  {
    NullPointerExceptionPart0();
    NullPointerExceptionPart1();
    NullPointerExceptionPart2();
    NullPointerExceptionPart3();
    Rtti.RTTIHashAppend(WordPointer, WordException, 0x8734_248C_6533_62FC);
    Rtti.RTTIHashAppend(WordNull, WordPointer + WordException, 0xEB2C_12C7_771D_178D);
    Rtti.RTTIHashAppend(Rtti.Slash, WordNull + (WordPointer + WordException), 0xE011_8823_2E2D_6190);
  }

  /** "/" hashed onto 0xE011_8823_2E2D_6190. */
  lemma IndexOutOfBoundsExceptionPart0()
    ensures Rtti.NoNul(Rtti.Slash) && Rtti.RTTIHash(Rtti.Slash, 0xE011_8823_2E2D_6190) == 0xEB2C_12C7_771D_178D
  {
    Rtti.RTTIHashTrace(Rtti.Slash, [
      0xE011_8823_2E2D_6190, 0xEB2C_12C7_771D_178D
    ]);
  }

  /** "Index" hashed onto 0xEB2C_12C7_771D_178D. */
  lemma IndexOutOfBoundsExceptionPart1()
    ensures Rtti.NoNul(WordIndex) && Rtti.RTTIHash(WordIndex, 0xEB2C_12C7_771D_178D) == 0xECF3_9800_E00C_CA73
  {
    Rtti.RTTIHashTrace(WordIndex, [
      0xEB2C_12C7_771D_178D, 0xB8FB_ACEF_666F_620C, 0xC309_3CCB_0F44_2C86,
      0xACDF_2F0A_F0D8_4406, 0x9781_5297_3F7C_3439, 0xECF3_9800_E00C_CA73
    ]);
  }

  /** "OutOf" hashed onto 0xECF3_9800_E00C_CA73. */
  lemma IndexOutOfBoundsExceptionPart2()
    ensures Rtti.NoNul(WordOutOf) && Rtti.RTTIHash(WordOutOf, 0xECF3_9800_E00C_CA73) == 0x0391_15E7_4DF7_1068
  {
    Rtti.RTTIHashTrace(WordOutOf, [
      0xECF3_9800_E00C_CA73, 0xAEB5_857C_B5BB_A3F4, 0x9A15_53E8_CDD6_D433,
      0xA911_DB95_C40A_B4A5, 0x540D_097C_1E31_699E, 0x0391_15E7_4DF7_1068
    ]);
  }

  /** "Bounds" hashed onto 0x0391_15E7_4DF7_1068. */
  lemma IndexOutOfBoundsExceptionPart3()
    ensures Rtti.NoNul(WordBounds) && Rtti.RTTIHash(WordBounds, 0x0391_15E7_4DF7_1068) == 0xF7D6_94A9_B804_7749
  {
    Rtti.RTTIHashTrace(WordBounds, [
      0x0391_15E7_4DF7_1068, 0x0698_6209_7AD0_775E, 0x0565_C71B_B03A_8843,
      0x6679_8A0C_7375_73C2, 0x95F9_3F28_3093_8D44, 0x6A13_714A_8AB8_CD60,
      0xF7D6_94A9_B804_7749
    ]);
  }

  /** "Exception" hashed onto 0xF7D6_94A9_B804_7749. */
  lemma IndexOutOfBoundsExceptionPart4()
    ensures Rtti.NoNul(WordException) && Rtti.RTTIHash(WordException, 0xF7D6_94A9_B804_7749) == 0x77FA_47CF_1BCA_274A
  {
    Rtti.RTTIHashTrace(WordException, [
      0xF7D6_94A9_B804_7749, 0x2615_A863_AF96_4964, 0x4D16_3D63_5C5E_3A94,
      0x5B05_46D5_F41E_31B5, 0xC829_2D8D_CF4E_A470, 0x6C9C_67F7_42A0_AC00,
      0x2E71_1D26_3705_091C, 0xEF3D_FCEF_7D8F_11CF, 0x1566_6AF2_5A1A_F2E0,
      0x77FA_47CF_1BCA_274A
    ]);
  }

  /** `IndexOutOfBoundsException::kTypeId = RTTIHash("/IndexOutOfBoundsException", RuntimeException::kTypeId)` evaluates to `TypeIdOf(IndexOutOfBoundsException)`. */
  lemma IndexOutOfBoundsExceptionTypeIdIsHash()
    ensures Rtti.RTTIHash(Rtti.Slash + Name(IndexOutOfBoundsException), BaseTypeId(IndexOutOfBoundsException)) == TypeIdOf(IndexOutOfBoundsException)
  {
    IndexOutOfBoundsExceptionPart0();
    IndexOutOfBoundsExceptionPart1();
    IndexOutOfBoundsExceptionPart2();
    IndexOutOfBoundsExceptionPart3();
    IndexOutOfBoundsExceptionPart4();
    Rtti.RTTIHashAppend(WordBounds, WordException, 0x0391_15E7_4DF7_1068);
    Rtti.RTTIHashAppend(WordOutOf, WordBounds + WordException, 0xECF3_9800_E00C_CA73);
    Rtti.RTTIHashAppend(WordIndex, WordOutOf + (WordBounds + WordException), 0xEB2C_12C7_771D_178D);
    Rtti.RTTIHashAppend(Rtti.Slash, WordIndex + (WordOutOf + (WordBounds + WordException)), 0xE011_8823_2E2D_6190);
  }

  /** "/" hashed onto 0xE011_8823_2E2D_6190. */
  lemma UnsupportedOperationExceptionPart0()
    ensures Rtti.NoNul(Rtti.Slash) && Rtti.RTTIHash(Rtti.Slash, 0xE011_8823_2E2D_6190) == 0xEB2C_12C7_771D_178D
  {
    Rtti.RTTIHashTrace(Rtti.Slash, [
      0xE011_8823_2E2D_6190, 0xEB2C_12C7_771D_178D
    ]);
  }

  /** "Unsupported" hashed onto 0xEB2C_12C7_771D_178D. */
  lemma UnsupportedOperationExceptionPart1()
    ensures Rtti.NoNul(WordUnsupported) && Rtti.RTTIHash(WordUnsupported, 0xEB2C_12C7_771D_178D) == 0x4B8B_6E5C_962E_7588
  {
    Rtti.RTTIHashTrace(WordUnsupported, [
      0xEB2C_12C7_771D_178D, 0xB8FB_C0EF_666F_8408, 0xC34D_3CCB_0F7D_F952,
      0x5A37_6E0B_530E_5313, 0x5A83_633E_2157_B652, 0x24F7_C492_A80A_7BC6,
      0xDB7E_BB33_89D0_3642, 0xC88E_4593_2CCC_0E77, 0x95CE_3E15_1EBB_D27F,
      0x4945_88E3_3925_E8B1, 0xA710_6E1A_1B6A_A03C, 0x4B8B_6E5C_962E_7588
    ]);
  }

  /** "Operation" hashed onto 0x4B8B_6E5C_962E_7588. */
  lemma UnsupportedOperationExceptionPart2()
    ensures Rtti.NoNul(WordOperation) && Rtti.RTTIHash(WordOperation, 0x4B8B_6E5C_962E_7588) == 0x6267_EB6B_AE90_4151
  {
    Rtti.RTTIHashTrace(WordOperation, [
      0x4B8B_6E5C_962E_7588, 0x8C62_4E53_30F2_2125, 0x7D2C_6C5C_2B6E_A36F,
      0x211F_2A9D_CCFF_09FE, 0x46FE_F623_555D_38E4, 0x0074_C30A_0D67_09FF,
      0x2D70_F514_C615_3731, 0x4C27_CA4C_960D_0A88, 0x74A7_A722_F829_8685,
      0x6267_EB6B_AE90_4151
    ]);
  }

  /** "Exception" hashed onto 0x6267_EB6B_AE90_4151. */
  lemma UnsupportedOperationExceptionPart3()
    ensures Rtti.NoNul(WordException) && Rtti.RTTIHash(WordException, 0x6267_EB6B_AE90_4151) == 0x491A_DFE1_D9A8_3722
  {
    Rtti.RTTIHashTrace(WordException, [
      0x6267_EB6B_AE90_4151, 0xC6D6_1BF9_9F1E_94FC, 0xFC66_0D29_60F6_5C4C,
      0xD7C4_8C4F_C29E_A3DD, 0x419E_2387_B390_31A8, 0x0FE8_3796_1E04_B208,
      0x0C48_F015_01FB_48B4, 0xDB38_D0B2_5DFC_CF87, 0x7E5A_8715_B495_4738,
      0x491A_DFE1_D9A8_3722
    ]);
  }

  /** `UnsupportedOperationException::kTypeId = RTTIHash("/UnsupportedOperationException", RuntimeException::kTypeId)` evaluates to `TypeIdOf(UnsupportedOperationException)`. */
  lemma UnsupportedOperationExceptionTypeIdIsHash()
    ensures Rtti.RTTIHash(Rtti.Slash + Name(UnsupportedOperationException), BaseTypeId(UnsupportedOperationException)) == TypeIdOf(UnsupportedOperationException)
  {
    UnsupportedOperationExceptionPart0();
    UnsupportedOperationExceptionPart1();
    UnsupportedOperationExceptionPart2();
    UnsupportedOperationExceptionPart3();
    Rtti.RTTIHashAppend(WordOperation, WordException, 0x4B8B_6E5C_962E_7588);
    Rtti.RTTIHashAppend(WordUnsupported, WordOperation + WordException, 0xEB2C_12C7_771D_178D);
    Rtti.RTTIHashAppend(Rtti.Slash, WordUnsupported + (WordOperation + WordException), 0xE011_8823_2E2D_6190);
  }

  /** "/" hashed onto 0xE011_8823_2E2D_6190. */
  lemma EmptyStackExceptionPart0()
    ensures Rtti.NoNul(Rtti.Slash) && Rtti.RTTIHash(Rtti.Slash, 0xE011_8823_2E2D_6190) == 0xEB2C_12C7_771D_178D
  {
    Rtti.RTTIHashTrace(Rtti.Slash, [
      0xE011_8823_2E2D_6190, 0xEB2C_12C7_771D_178D
    ]);
  }

  /** "Empty" hashed onto 0xEB2C_12C7_771D_178D. */
  lemma EmptyStackExceptionPart1()
    ensures Rtti.NoNul(WordEmpty) && Rtti.RTTIHash(WordEmpty, 0xEB2C_12C7_771D_178D) == 0x2DF1_29BA_76BD_8546
  {
    Rtti.RTTIHashTrace(WordEmpty, [
      0xEB2C_12C7_771D_178D, 0xB8FB_B0EF_666F_68D8, 0xC316_5BCB_0F4E_EB8F,
      0xCDE9_F90B_031B_024D, 0xFF94_66B6_46E4_C6DB, 0x2DF1_29BA_76BD_8546
    ]);
  }

  /** "Stack" hashed onto 0x2DF1_29BA_76BD_8546. */
  lemma EmptyStackExceptionPart2()
    ensures Rtti.NoNul(WordStack) && Rtti.RTTIHash(WordStack, 0x2DF1_29BA_76BD_8546) == 0x0FA7_7C9F_1FDF_FE16
  {
    Rtti.RTTIHashTrace(WordStack, [
      0x2DF1_29BA_76BD_8546, 0xCE4E_FCD7_C409_22AF, 0x995A_7DA2_1B86_3A21,
      0x1AFD_BA74_C514_FAC0, 0xF21E_776A_E2A5_E2F9, 0x0FA7_7C9F_1FDF_FE16
    ]);
  }

  /** "Exception" hashed onto 0x0FA7_7C9F_1FDF_FE16. */
  lemma EmptyStackExceptionPart3()
    ensures Rtti.NoNul(WordException) && Rtti.RTTIHash(WordException, 0x0FA7_7C9F_1FDF_FE16) == 0x60B0_1BB4_B07D_33FF
  {
    Rtti.RTTIHashTrace(WordException, [
      0x0FA7_7C9F_1FDF_FE16, 0x7997_1563_299D_2709, 0x38E0_C87F_B60A_0503,
      0xAFFA_1102_5307_2220, 0x0D0D_2BF3_151F_3B3F, 0x4C9C_FD0C_E411_C73D,
      0x4089_45E7_8A35_A10B, 0xDEE3_2A6F_D921_3986, 0xDD3B_050D_F375_66EB,
      0x60B0_1BB4_B07D_33FF
    ]);
  }

  /** `EmptyStackException::kTypeId = RTTIHash("/EmptyStackException", RuntimeException::kTypeId)` evaluates to `TypeIdOf(EmptyStackException)`. */
  lemma EmptyStackExceptionTypeIdIsHash()
    ensures Rtti.RTTIHash(Rtti.Slash + Name(EmptyStackException), BaseTypeId(EmptyStackException)) == TypeIdOf(EmptyStackException)
  {
    EmptyStackExceptionPart0();
    EmptyStackExceptionPart1();
    EmptyStackExceptionPart2();
    EmptyStackExceptionPart3();
    Rtti.RTTIHashAppend(WordStack, WordException, 0x2DF1_29BA_76BD_8546);
    Rtti.RTTIHashAppend(WordEmpty, WordStack + WordException, 0xEB2C_12C7_771D_178D);
    Rtti.RTTIHashAppend(Rtti.Slash, WordEmpty + (WordStack + WordException), 0xE011_8823_2E2D_6190);
  }

  /** "/" hashed onto 0x078F_342C_1208_6EC4. */
  lemma IOExceptionPart0()
    ensures Rtti.NoNul(Rtti.Slash) && Rtti.RTTIHash(Rtti.Slash, 0x078F_342C_1208_6EC4) == 0xE0C4_91E2_A454_7951
  {
    Rtti.RTTIHashTrace(Rtti.Slash, [
      0x078F_342C_1208_6EC4, 0xE0C4_91E2_A454_7951
    ]);
  }

  /** "IO" hashed onto 0xE0C4_91E2_A454_7951. */
  lemma IOExceptionPart1()
    ensures Rtti.NoNul(WordIO) && Rtti.RTTIHash(WordIO, 0xE0C4_91E2_A454_7951) == 0x8423_ECAC_2B17_3E65
  {
    Rtti.RTTIHashTrace(WordIO, [
      0xE0C4_91E2_A454_7951, 0x427C_FC1D_3B89_C3C8, 0x8423_ECAC_2B17_3E65
    ]);
  }

  /** "Exception" hashed onto 0x8423_ECAC_2B17_3E65. */
  lemma IOExceptionPart2()
    ensures Rtti.NoNul(WordException) && Rtti.RTTIHash(WordException, 0x8423_ECAC_2B17_3E65) == 0x9ED7_25FC_2A14_5076
  {
    Rtti.RTTIHashTrace(WordException, [
      0x8423_ECAC_2B17_3E65, 0xA049_488D_387E_9060, 0xDB16_5FF6_FF0E_D8C8,
      0x55DD_BBB3_663A_2A91, 0x21F0_E5D6_B4D6_FC9C, 0x8353_77D5_494F_C504,
      0x769A_0F6B_928C_7D50, 0x1445_6CCA_04B8_C7DB, 0x2ABF_8F46_05FB_56DC,
      0x9ED7_25FC_2A14_5076
    ]);
  }

  /** `IOException::kTypeId = RTTIHash("/IOException", RTTI::kTypeId)` evaluates to `TypeIdOf(IOException)`. */
  lemma IOExceptionTypeIdIsHash()
    ensures Rtti.RTTIHash(Rtti.Slash + Name(IOException), BaseTypeId(IOException)) == TypeIdOf(IOException)
  {
    IOExceptionPart0();
    IOExceptionPart1();
    IOExceptionPart2();
    Rtti.RTTIHashAppend(WordIO, WordException, 0xE0C4_91E2_A454_7951);
    Rtti.RTTIHashAppend(Rtti.Slash, WordIO + WordException, 0x078F_342C_1208_6EC4);
  }

  /** "/" hashed onto 0x3A8A_528B_CC16_07EB. */
  lemma CancellationExceptionPart0()
    ensures Rtti.NoNul(Rtti.Slash) && Rtti.RTTIHash(Rtti.Slash, 0x3A8A_528B_CC16_07EB) == 0x8F12_078B_C96F_320C
  {
    Rtti.RTTIHashTrace(Rtti.Slash, [
      0x3A8A_528B_CC16_07EB, 0x8F12_078B_C96F_320C
    ]);
  }

  /** "Cancellation" hashed onto 0x8F12_078B_C96F_320C. */
  lemma CancellationExceptionPart1()
    ensures Rtti.NoNul(WordCancellation) && Rtti.RTTIHash(WordCancellation, 0x8F12_078B_C96F_320C) == 0x9A8F_04D4_C962_5FB7
  {
    Rtti.RTTIHashTrace(WordCancellation, [
      0x8F12_078B_C96F_320C, 0x8AD5_2187_47F2_7C3D, 0xDAA4_54DF_4109_5054,
      0x8E8C_715B_82D3_528E, 0x0BF7_8B7F_4D15_E8B7, 0x6B8A_DB4F_FC3A_9CD6,
      0xF78F_62E9_9798_500E, 0x40F5_74EC_97D0_9686, 0x31AC_9505_F770_6A85,
      0xD8AC_2A23_7405_B783, 0x3243_843E_25B7_829E, 0x203C_A69A_16D3_7F83,
      0x9A8F_04D4_C962_5FB7
    ]);
  }

  /** "Exception" hashed onto 0x9A8F_04D4_C962_5FB7. */
  lemma CancellationExceptionPart2()
    ensures Rtti.NoNul(WordException) && Rtti.RTTIHash(WordException, 0x9A8F_04D4_C962_5FB7) == 0xB59C_DD67_D757_B210
  {
    Rtti.RTTIHashTrace(WordException, [
      0x9A8F_04D4_C962_5FB7, 0x0365_2792_3229_0836, 0xEDEA_8B6B_3BB9_1C8A,
      0xFEA7_D036_7B8C_1FEB, 0x4346_5A93_EF19_9E4A, 0x6A2A_235F_4887_DC8E,
      0xED77_14E8_3EDC_7CCE, 0x5DD5_2DA2_D0A7_CFC5, 0x190C_35A8_8D25_DDDE,
      0xB59C_DD67_D757_B210
    ]);
  }

  /** `CancellationException::kTypeId = RTTIHash("/CancellationException", IllegalStateException::kTypeId)` evaluates to `TypeIdOf(CancellationException)`. */
  lemma CancellationExceptionTypeIdIsHash()
    ensures Rtti.RTTIHash(Rtti.Slash + Name(CancellationException), BaseTypeId(CancellationException)) == TypeIdOf(CancellationException)
  {
    CancellationExceptionPart0();
    CancellationExceptionPart1();
    CancellationExceptionPart2();
    Rtti.RTTIHashAppend(WordCancellation, WordException, 0x8F12_078B_C96F_320C);
    Rtti.RTTIHashAppend(Rtti.Slash, WordCancellation + WordException, 0x3A8A_528B_CC16_07EB);
  }

  /** "/" hashed onto 0xB59C_DD67_D757_B210. */
  lemma ParseCancellationExceptionPart0()
    ensures Rtti.NoNul(Rtti.Slash) && Rtti.RTTIHash(Rtti.Slash, 0xB59C_DD67_D757_B210) == 0xF13E_7672_EA03_E10D
  {
    Rtti.RTTIHashTrace(Rtti.Slash, [
      0xB59C_DD67_D757_B210, 0xF13E_7672_EA03_E10D
    ]);
  }

  /** "Parse" hashed onto 0xF13E_7672_EA03_E10D. */
  lemma ParseCancellationExceptionPart1()
    ensures Rtti.NoNul(WordParse) && Rtti.RTTIHash(WordParse, 0xF13E_7672_EA03_E10D) == 0xDC81_F5EC_1746_60C4
  {
    Rtti.RTTIHashTrace(WordParse, [
      0xF13E_7672_EA03_E10D, 0xF104_A243_A497_F107, 0x22D1_1EF0_AE2F_3052,
      0x5887_B2F7_FA2E_C660, 0x9D5B_2E5E_1D7A_9249, 0xDC81_F5EC_1746_60C4
    ]);
  }

  /** "Cancellation" hashed onto 0xDC81_F5EC_1746_60C4. */
  lemma ParseCancellationExceptionPart2()
    ensures Rtti.NoNul(WordCancellation) && Rtti.RTTIHash(WordCancellation, 0xDC81_F5EC_1746_60C4) == 0xA55A_6907_8752_65AF
  {
    Rtti.RTTIHashTrace(WordCancellation, [
      0xDC81_F5EC_1746_60C4, 0xF735_672B_8C96_0565, 0xA5C3_52FF_E2EA_85CC,
      0x956B_AACE_9481_1246, 0x6705_6206_5751_D4DF, 0x5FFA_4AC6_600C_780E,
      0x22C5_7115_3530_8E86, 0x460E_1109_6182_D79E, 0x8CBE_F1F0_B155_064D,
      0x7D7B_54FD_5379_92DB, 0xB224_1C74_D794_4476, 0x47A0_738A_50EF_B67B,
      0xA55A_6907_8752_65AF
    ]);
  }

  /** "Exception" hashed onto 0xA55A_6907_8752_65AF. */
  lemma ParseCancellationExceptionPart3()
    ensures Rtti.NoNul(WordException) && Rtti.RTTIHash(WordException, 0xA55A_6907_8752_65AF) == 0xE50C_C1D4_B1DA_A698
  {
    Rtti.RTTIHashTrace(WordException, [
      0xA55A_6907_8752_65AF, 0x4B06_61CA_F103_2C9E, 0x7F05_11D7_8865_4AD2,
      0x3AE8_023C_C41D_EAC3, 0x3626_7341_3ED5_B812, 0xD90E_39DD_C528_4E86,
      0xFB7B_45D6_037E_2536, 0xD09D_09A7_EF59_806D, 0xD457_6A5B_B514_8366,
      0xE50C_C1D4_B1DA_A698
    ]);
  }

  /** `ParseCancellationException::kTypeId = RTTIHash("/ParseCancellationException", CancellationException::kTypeId)` evaluates to `TypeIdOf(ParseCancellationException)`. */
  lemma ParseCancellationExceptionTypeIdIsHash()
    ensures Rtti.RTTIHash(Rtti.Slash + Name(ParseCancellationException), BaseTypeId(ParseCancellationException)) == TypeIdOf(ParseCancellationException)
  {
    ParseCancellationExceptionPart0();
    ParseCancellationExceptionPart1();
    ParseCancellationExceptionPart2();
    ParseCancellationExceptionPart3();
    Rtti.RTTIHashAppend(WordCancellation, WordException, 0xDC81_F5EC_1746_60C4);
    Rtti.RTTIHashAppend(WordParse, WordCancellation + WordException, 0xF13E_7672_EA03_E10D);
    Rtti.RTTIHashAppend(Rtti.Slash, WordParse + (WordCancellation + WordException), 0xB59C_DD67_D757_B210);
  }

  /** `RTTI::kTypeId = RTTIHash("RTTI", kFNV1aInitialHash64)` evaluates to `RootTypeId`. */
  lemma RootClassIsRtti()
    ensures RootClass == Rtti.RTTIClass
  {
  }

  /** Every exception class's evaluated id is the one its declaration computes. */
  lemma {:induction false} TypeIdIsHash(k: Kind)
    ensures Rtti.RTTIHash(Rtti.Slash + Name(k), BaseTypeId(k)) == TypeIdOf(k)
  {
    match k
    case RuntimeException => RuntimeExceptionTypeIdIsHash();
    case IllegalStateException => IllegalStateExceptionTypeIdIsHash();
    case IllegalArgumentException => IllegalArgumentExceptionTypeIdIsHash();
    case NullPointerException => NullPointerExceptionTypeIdIsHash();
    case IndexOutOfBoundsException => IndexOutOfBoundsExceptionTypeIdIsHash();
    case UnsupportedOperationException => UnsupportedOperationExceptionTypeIdIsHash();
    case EmptyStackException => EmptyStackExceptionTypeIdIsHash();
    case IOException => IOExceptionTypeIdIsHash();
    case CancellationException => CancellationExceptionTypeIdIsHash();
    case ParseCancellationException => ParseCancellationExceptionTypeIdIsHash();
  }

  /** The description of every exception class is the one `IMPLEMENT_RTTI` declares. */
  lemma {:induction false} ExceptionClassesWellDeclared(k: Kind)
    ensures Rtti.WellDeclared(ClassOf(k))
    decreases Rank(k)
  {
    TypeIdIsHash(k);
    RootClassIsRtti();
    if Parent(k).Some? {
      ExceptionClassesWellDeclared(Parent(k).value);
    }
  }
}
