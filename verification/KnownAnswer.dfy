/** One hash computed through in machine arithmetic: it ties the model to BLAKE2b-256 itself. */
module KnownAnswer {
  import opened Base
  import opened Bits
  import opened Blake2b
  import opened MachineWords
  import opened RoundLaws

  /** The bytes 0 to 127: sixteen different words, so that every entry of the schedule matters. */
  function Message(): Bytes {
    seq(128, i requires 0 <= i < 128 => i)
  }

  /** The sixteen words of a state, row by row. */
  datatype Grid = Grid(a0: bv64, a1: bv64, a2: bv64, a3: bv64, b0: bv64, b1: bv64, b2: bv64, b3: bv64,
                       c0: bv64, c1: bv64, c2: bv64, c3: bv64, d0: bv64, d1: bv64, d2: bv64, d3: bv64) {
    function Flat(): (v: seq<bv64>)
      ensures |v| == 16
    {
      [a0, a1, a2, a3, b0, b1, b2, b3, c0, c1, c2, c3, d0, d1, d2, d3]
    }

    lemma RowA()
      ensures Flat()[0] == a0 && Flat()[1] == a1 && Flat()[2] == a2 && Flat()[3] == a3
    {
    }

    lemma RowB()
      ensures Flat()[4] == b0 && Flat()[5] == b1 && Flat()[6] == b2 && Flat()[7] == b3
    {
    }

    lemma RowC()
      ensures Flat()[8] == c0 && Flat()[9] == c1 && Flat()[10] == c2 && Flat()[11] == c3
    {
    }

    lemma RowD()
      ensures Flat()[12] == d0 && Flat()[13] == d1 && Flat()[14] == d2 && Flat()[15] == d3
    {
    }

    lemma Cells()
      ensures Flat()[0] == a0 && Flat()[1] == a1 && Flat()[2] == a2 && Flat()[3] == a3
      ensures Flat()[4] == b0 && Flat()[5] == b1 && Flat()[6] == b2 && Flat()[7] == b3
      ensures Flat()[8] == c0 && Flat()[9] == c1 && Flat()[10] == c2 && Flat()[11] == c3
      ensures Flat()[12] == d0 && Flat()[13] == d1 && Flat()[14] == d2 && Flat()[15] == d3
    {
      hide Flat;
      RowA();
      RowB();
      RowC();
      RowD();
    }
  }

  const M := Grid(0x0706_0504_0302_0100, 0x0f0e_0d0c_0b0a_0908, 0x1716_1514_1312_1110, 0x1f1e_1d1c_1b1a_1918,
                  0x2726_2524_2322_2120, 0x2f2e_2d2c_2b2a_2928, 0x3736_3534_3332_3130, 0x3f3e_3d3c_3b3a_3938,
                  0x4746_4544_4342_4140, 0x4f4e_4d4c_4b4a_4948, 0x5756_5554_5352_5150, 0x5f5e_5d5c_5b5a_5958,
                  0x6766_6564_6362_6160, 0x6f6e_6d6c_6b6a_6968, 0x7776_7574_7372_7170, 0x7f7e_7d7c_7b7a_7978)
  const WORDS := M.Flat()

  /** The state at the start, and after the columns and the diagonals of each round. */
  const START := Grid(0x6a09_e667_f2bd_c928, 0xbb67_ae85_84ca_a73b, 0x3c6e_f372_fe94_f82b, 0xa54f_f53a_5f1d_36f1,
                      0x510e_527f_ade6_82d1, 0x9b05_688c_2b3e_6c1f, 0x1f83_d9ab_fb41_bd6b, 0x5be0_cd19_137e_2179,
                      0x6a09_e667_f3bc_c908, 0xbb67_ae85_84ca_a73b, 0x3c6e_f372_fe94_f82b, 0xa54f_f53a_5f1d_36f1,
                      0x510e_527f_ade6_8251, 0x9b05_688c_2b3e_6c1f, 0xe07c_2654_04be_4294, 0x5be0_cd19_137e_2179)
  const C0 := Grid(0xfce6_9820_f397_c52c, 0xfb29_447a_67d3_b4d2, 0x6ab8_48ba_7e81_3e78, 0x54f6_2acb_c45a_c7a3,
                   0x1173_d53f_3365_ec10, 0xf51f_e27e_1dfc_14d3, 0x0eab_a7be_119f_a97b, 0x0822_ecc9_4f3e_3b75,
                   0x2303_a7b6_dd55_9923, 0x9408_0a07_8760_7d39, 0x3f24_fa94_3e91_ea27, 0x5941_8063_44cc_196b,
                   0xaab8_f2a6_5688_6087, 0xf07b_130c_0c0f_9155, 0xea6f_72fe_dc98_1de5, 0xfd3d_e245_8228_a7dc)
  const D0 := Grid(0x87ee_2c12_dc75_6aa5, 0x80ef_8de6_4d08_c8f6, 0xf7c8_7abc_afa9_4afd, 0xe7c7_9d56_a745_9128,
                   0xd068_72c1_482f_ce12, 0x64e8_2cd7_5f42_b39f, 0x5e1d_09ba_ef69_2663, 0x1aa7_9dba_5653_5da5,
                   0x234b_bcb5_3834_a89a, 0xe25c_933a_6480_1584, 0x4d27_0888_93f4_5fd1, 0x6f6b_6a20_535c_5330,
                   0x7bdc_1aa2_42fc_869b, 0xc319_cae6_30a4_8593, 0x96a9_506c_a590_90ca, 0x3703_5110_90f1_1804)
  const C1 := Grid(0x919c_ffcb_4a05_ac1b, 0x7add_39ac_e037_9560, 0x0c7a_3303_5412_8448, 0x1125_1625_966d_7531,
                   0x96a3_458f_c24c_0a79, 0x8828_49e7_30d3_d86a, 0x8a3b_2ac4_1d96_3240, 0x3b57_56b6_14cf_ed39,
                   0xa128_34e9_bfbd_b598, 0x628d_3075_55ee_5a5e, 0xa2da_76a0_e0f0_4908, 0xf5ba_9328_f050_1d50,
                   0xa2f1_4b77_d377_fe14, 0x8067_8514_218a_2fd3, 0x05e7_43b6_1961_6788, 0x8c5c_e8d7_5614_d0b3)
  const D1 := Grid(0xe418_d821_e2e0_27a2, 0xcc41_90cc_5dc4_f332, 0xb068_c50f_87c6_4a04, 0x4244_7269_4bb8_21d5,
                   0x577a_29fa_9513_c36b, 0x8684_2063_e60a_eaaa, 0x675f_f728_18b6_57fe, 0xce3d_9edf_1e89_fba8,
                   0xaee4_6fd2_070b_b827, 0xe792_d896_e633_be5e, 0x109d_0bcf_0a9f_4de0, 0x9aa2_e9d7_45b8_327d,
                   0xd130_1ff9_a678_f32b, 0x2805_55de_2005_a08e, 0xea82_d8c6_bd33_98a9, 0x99cb_37ef_851f_466f)
  const C2 := Grid(0xc173_6830_779f_606c, 0x191d_1e80_f88c_6ada, 0x0335_7a58_4c61_56e9, 0x097e_fc66_cc4b_aeae,
                   0x3466_302a_a68b_df83, 0x9f60_2937_6fae_8da7, 0x96ad_5e25_1a8e_4a6a, 0x31b8_48f6_0f48_3ef2,
                   0x4508_db66_324b_3506, 0x985b_1673_f98f_6c4d, 0xee7e_d4f2_e0ef_5f9a, 0x12cc_244e_7c80_b128,
                   0x20ed_b445_df7e_3c5e, 0x2990_9e2a_8132_6aa5, 0x674c_75a0_29db_e015, 0x1785_69dd_2cfc_c580)
  const D2 := Grid(0x6503_b8cc_69f9_92d2, 0x11b3_9489_1baf_73fc, 0xd327_6204_04b7_c2ba, 0x3a00_e806_14c1_c2db,
                   0xf6b9_65bf_e009_7b94, 0x2fd8_3f5c_d25a_a95e, 0xd20c_65b0_d6b3_4052, 0xee30_24fc_6ae7_8c5d,
                   0xb8f5_4613_57ba_2cb1, 0xfefb_fbdb_c379_7788, 0x228f_4335_d2cb_b550, 0x6292_f74a_d111_d459,
                   0x5e7b_e0f9_668b_f5aa, 0x5c1a_c4f6_c7b2_590b, 0xcea6_adfa_df6a_febe, 0x1db3_735f_422f_c655)
  const C3 := Grid(0x1de6_1f7e_e325_88e2, 0xe5bc_20f0_5e82_494c, 0xdf17_13f3_eceb_7e4e, 0xa966_e6e8_ddb9_0601,
                   0xc7c7_01e5_b631_f0f7, 0x789d_693a_0bc4_0cfe, 0x83d4_cb8e_d974_6ac1, 0x61bd_229e_f873_b1bd,
                   0xd07f_f698_c985_0f87, 0x4a4a_967f_4fb6_0fad, 0xa2e4_1ca9_2e09_851a, 0x1abf_965a_f37b_34df,
                   0x33d3_fe50_ad4a_27a5, 0x7cb8_2b2a_4f89_6231, 0xe695_46a8_8139_36ef, 0x1f00_304a_882d_4785)
  const D3 := Grid(0x4c0e_3255_5cc4_fd0b, 0x8c8b_8a6a_b4ce_93cc, 0x2331_fa31_408e_7e47, 0x16b3_12ae_b484_ad83,
                   0x718e_2225_b7f8_513d, 0x34f3_3947_28a6_082a, 0x822f_914f_e372_b277, 0x24a6_2935_31f3_efd9,
                   0x2662_8dec_adf2_dbf0, 0x6607_760d_ba20_d34d, 0x7d47_c3f7_b3c4_20fe, 0x5d61_d3cd_0fe2_3c7c,
                   0x7437_42e1_70fa_1fa2, 0x0eda_6439_c92b_5bcc, 0x8d60_98ef_5431_a2bd, 0x508c_c5d8_d320_ee5d)
  const C4 := Grid(0x3cde_d212_513d_d321, 0x614b_4c2d_9206_a5e6, 0x8d88_d51b_9f6b_87f5, 0x08ac_9421_a342_f407,
                   0x9f12_d208_dd89_a4ce, 0xd3bd_5799_8b76_e668, 0x6c23_32ee_bce4_45e6, 0x3e9a_64d3_1650_f2bc,
                   0x6767_4242_80f0_e8f6, 0x58be_b5df_8b96_d4a4, 0x9ffa_9615_1b44_07f4, 0xe933_b705_66d5_f2bd,
                   0x3007_2c23_5a20_29e0, 0x3101_a0fe_d2ff_6c70, 0xbf8f_eeaa_3668_ae7c, 0xa0e7_e246_94d0_6161)
  const D4 := Grid(0xe683_dee3_a7e7_68d0, 0xd9da_4092_c7b8_cdc3, 0x63ea_2307_0f9d_edc6, 0x9732_4f4c_6558_952e,
                   0x3fd2_9d68_1782_4e87, 0x6b96_6d2d_2a06_4146, 0xa52f_667a_2bd3_3368, 0xb5b2_1aa0_e965_ec65,
                   0xc393_63cf_97df_f697, 0xff0f_102d_55c6_5e9a, 0x7aa8_0421_d9b5_146c, 0x1731_4d88_aff8_be8b,
                   0x3d98_29bf_2c56_db73, 0x221a_59fb_e496_3dc5, 0xf8c2_3abc_50dd_1c0a, 0x15b6_2274_957b_8f12)
  const C5 := Grid(0xfbb4_e7c2_48c9_b556, 0x5956_281d_5926_9627, 0xb179_b92e_12f1_b86f, 0xa3f0_81f8_cb9c_c6c3,
                   0x332f_1907_3e82_f877, 0xd38f_911f_d50e_4bba, 0x68ad_dea4_6173_fc71, 0x3529_14fd_c69e_fe11,
                   0xcf76_7c7d_8daa_f7b4, 0xec9f_275b_0a64_2143, 0xf5ad_221e_499d_c2d1, 0x6a33_3fd5_fdce_95d0,
                   0x0db6_0599_f4d6_483d, 0x2d28_9931_55e1_079a, 0x0c56_dfd7_870a_fa2c, 0x4b86_a48b_cc39_4a00)
  const D5 := Grid(0xed8f_efc4_ab7f_dc6a, 0xe190_b62d_b91c_5c63, 0x07cc_1e02_122d_c386, 0x92dd_5ea6_4db4_e054,
                   0x9660_670b_19d1_1c4e, 0xddc2_1f94_e0ca_8647, 0x683b_c2ad_b13d_eaee, 0x9697_e1c6_8d4a_02df,
                   0xe17f_ac06_0f15_2371, 0x1651_5ac8_61a8_40ed, 0x6957_eb9b_8f7e_13f1, 0x853d_a455_4083_921c,
                   0x1a07_e092_35c0_b5e8, 0x111f_0726_3660_5924, 0x978f_00fe_6cc8_a7cf, 0xe6e7_614c_87f4_1693)
  const C6 := Grid(0xd221_42c8_e7da_7f59, 0x307f_f2c0_407e_30cb, 0xa96c_e93b_f7a9_f3fd, 0x5d85_e24e_d6ca_291e,
                   0x2ade_6442_7cc4_d577, 0x394a_4477_42d8_1cef, 0x742d_65d4_083d_3124, 0x3281_f81e_c5b6_49ab,
                   0x22f3_6b49_ad9e_96a2, 0x7e05_b04e_817e_c5d6, 0x6896_9741_517f_f223, 0x2cd4_db66_e78d_f7ae,
                   0x23ff_cf52_ad38_168b, 0xd523_a2ef_4056_9f01, 0xa527_f37a_5110_8758, 0x2dc2_2450_f08e_60b6)
  const D6 := Grid(0x3d36_a1fd_04c0_1f53, 0x920d_175c_1e0c_dc0e, 0x4dbe_8514_8a39_bd6e, 0xf7f4_dba1_0b38_32bd,
                   0x8e64_d6fc_ac68_7354, 0x2d3f_5a6e_edcf_3af2, 0x6a6b_9347_eaec_1f1e, 0x2cfd_964e_4dbf_64ff,
                   0x9d15_8a7e_48a2_9711, 0x8fd9_9911_4f38_a03a, 0xfd19_754b_ed36_d5aa, 0xa23e_a5d4_7273_2058,
                   0x9e94_44d8_92c8_e610, 0x3126_0542_9ce5_7427, 0x4a12_3035_632c_61b5, 0xb747_e00c_5c03_3b73)
  const C7 := Grid(0xc2b2_df67_835f_b6a9, 0xa071_b1c2_ae70_219b, 0x83db_0c9f_b9d5_299c, 0x094a_7d3e_6c03_2c44,
                   0x2f98_d447_7194_03a6, 0xbbb7_6bea_8e4b_e751, 0x9037_17ec_8b85_dabc, 0xf0ff_e467_e186_3936,
                   0x3f86_f186_b3b8_6091, 0xf7ab_38b3_b4c2_ac5b, 0x1d27_0a24_9380_0ff6, 0x0d94_52d5_5c64_2eb3,
                   0x1417_4ce8_c578_26c2, 0x8bde_7b82_95dd_61dc, 0x6469_387f_50c6_ec57, 0x4343_2158_f699_9f54)
  const D7 := Grid(0xc52c_cadf_03e1_392e, 0xe92e_373d_8444_a67a, 0x24ee_d7fa_4a23_084c, 0x6e58_a3a5_c62c_b9db,
                   0x70a0_a840_dad5_bed9, 0xafea_7941_a218_4eb4, 0x756d_ebc9_9eec_aac2, 0xc3b4_96f1_8b7e_3e79,
                   0xd04d_2702_fdec_2c36, 0x7f58_b397_ef5b_f8fd, 0x477b_71fc_1505_5656, 0x2b56_3f09_64c4_5aea,
                   0xadb9_9926_6430_2074, 0x4585_6fae_1234_7ddc, 0xe73d_ce37_0f08_edbc, 0x6008_0f60_92a9_ed3a)
  const C8 := Grid(0x6065_9707_13fb_a913, 0xddeb_61e4_9ed1_4bcc, 0x79c8_ee24_133c_452b, 0x220f_2112_87b4_c0ca,
                   0x5ac8_6e6b_b4e6_6d1b, 0xe5d1_949c_0d75_29a6, 0xbbea_52cf_e064_9914, 0x8071_5766_3933_d944,
                   0xde87_4603_5ceb_30e9, 0x0ce5_24ea_bf0d_0f35, 0x3d1a_8680_438a_5327, 0xe18d_3781_f35c_6a94,
                   0x9861_15bc_9e44_d341, 0x0191_5610_7aa6_cbdb, 0xaa3c_32aa_0ffe_0dba, 0xf031_e40a_357c_deaf)
  const D8 := Grid(0x0895_3826_b3ca_efd5, 0x2dbd_844a_c160_cbe4, 0x285a_a346_9002_11f3, 0xfbe4_c8d4_ec10_b9e6,
                   0x083f_4b4f_8f06_cc4e, 0x9485_70f4_d044_386d, 0x6fa2_1212_0c85_6c23, 0xac6a_2773_4196_0e2d,
                   0x21d9_3835_b5ae_ce4a, 0xfc97_1371_f77a_77ae, 0x89a3_2a71_73c7_b69a, 0x52ea_2de4_9dc4_f275,
                   0xfc78_5959_1943_5045, 0x1575_0586_4fea_98db, 0x6f9e_7bf7_ba5b_9201, 0x9ad8_b93a_d290_ee66)
  const C9 := Grid(0x86c4_8198_2914_4248, 0x633e_3dab_1989_af75, 0xf7c5_0661_aa51_bb9e, 0xc5c3_f911_c425_0ccd,
                   0xe530_1952_b2dc_5dcc, 0x3536_6dd9_a9af_e9d8, 0x86d2_6971_a18f_03a5, 0xb52a_a7a9_e3f8_641c,
                   0x751b_9f10_26b0_0d23, 0x2815_e8ef_f557_bc28, 0x2a3a_ea20_4f9a_52f2, 0x85ad_9d45_91b6_2084,
                   0xc3db_09a3_dcae_bd46, 0x9070_f833_e0e1_0575, 0x32fd_9a5f_232e_12f5, 0x48a3_2fe3_c66c_e9a1)
  const D9 := Grid(0x7653_f1d2_64f4_7f5a, 0x63f3_55c4_258c_88ff, 0x0898_5b97_9741_b892, 0x4d64_ffe1_5124_8bb0,
                   0xf8ce_8e12_7977_5bba, 0x6b32_27b8_7408_5a8e, 0xcd64_f89e_1557_ccf4, 0x3e06_6dbe_c64a_2a27,
                   0x4a27_1dd4_e95e_0b73, 0x579b_3c05_570d_1b72, 0xeee5_345b_815f_ad2d, 0xd5af_97a9_a11c_fd57,
                   0x7535_b93f_14e0_df09, 0x8b86_411d_6630_cb3c, 0x6e3f_8c21_3915_79bb, 0x3c57_fe01_bdeb_172e)
  const C10 := Grid(0x9149_82bc_6726_c8b1, 0xc80e_20f5_cb1d_2c65, 0x57bf_f7ae_ebd1_b6cf, 0x5b4f_ec03_83c5_8da5,
                    0x7210_eae2_2964_9c20, 0xc15a_1eef_ce87_165f, 0x044b_cb45_9bb7_f8e6, 0x8e38_704a_83af_7473,
                    0x351a_85b6_6e1c_ad85, 0x2219_7e3e_e41f_959f, 0x294b_b48a_3d30_1b72, 0x9e6c_33d7_bc3d_d75f,
                    0xf566_64c4_81a1_643b, 0xffe8_0298_1f54_a6a0, 0x43b7_a111_28b3_78cd, 0xd170_ac04_1c2a_7d33)
  const D10 := Grid(0x37a8_6d8c_4049_6be3, 0x2712_ebc9_cf0f_0cfb, 0x38d6_7457_282d_e9ad, 0xa874_942e_f59f_e96f,
                    0x94e1_9194_75bf_4257, 0xc29a_b821_956e_dafb, 0x4f4c_5fa0_6be0_5717, 0xaa67_392d_2ded_c88c,
                    0x293a_a51a_7f29_17e5, 0x2e6e_0292_6357_75e9, 0xaf3d_655f_b6b8_6f36, 0x03a2_630d_8c7d_1683,
                    0x29b0_1c94_f969_19d9, 0x2668_f561_5e55_9a9b, 0x0424_a05b_77d6_f2ff, 0x2117_5372_30ef_08d0)
  const C11 := Grid(0x0194_7b57_2a07_8a93, 0xd482_bb1e_c410_8865, 0x4496_f7d8_e254_f765, 0x30c9_2168_a07a_38d5,
                    0x7bc5_98f3_898f_bc09, 0x800c_1eb8_7711_361b, 0x47dd_26e9_3d71_a55c, 0x48c3_69e8_f9f4_5e4c,
                    0xdbdf_7d14_69fd_c79d, 0xbc6e_a396_c2a6_a502, 0xce49_ca6c_1939_214f, 0x1329_059f_a2b5_c364,
                    0xe292_d186_7d24_47b7, 0xb40b_0d77_2893_f2ab, 0x767d_ec18_8f2b_3101, 0x516f_8ede_32db_4327)
  const D11 := Grid(0xe392_1c6d_5ecf_70c3, 0x17d8_aeeb_2be0_3f2a, 0x711b_470e_3f91_467c, 0xe2e7_a091_b898_a517,
                    0x5a33_20f7_6f6f_5025, 0x5a69_bb08_7d79_5f1e, 0x966a_de88_7006_36b8, 0x5402_04a4_23dd_7e27,
                    0xef25_48e1_dd5d_e128, 0x4515_0b96_fffd_c5eb, 0xc649_d269_71f6_ea22, 0x9669_dd8f_2c4a_e405,
                    0x09a0_6e78_c79d_ea17, 0xf415_6e2b_1aac_6722, 0xae87_38f8_8f96_1559, 0x5906_7d6b_96fc_9f0e)

  lemma ColumnsOf(v: seq<bv64>, m: seq<bv64>, s: Row, w: seq<bv64>)
    requires |v| == 16 && |m| == 16 && |w| == 16
    requires MixW(v[0], v[4], v[8], v[12], m[s[0]], m[s[1]]) == Quad(w[0], w[4], w[8], w[12])
    requires MixW(v[1], v[5], v[9], v[13], m[s[2]], m[s[3]]) == Quad(w[1], w[5], w[9], w[13])
    requires MixW(v[2], v[6], v[10], v[14], m[s[4]], m[s[5]]) == Quad(w[2], w[6], w[10], w[14])
    requires MixW(v[3], v[7], v[11], v[15], m[s[6]], m[s[7]]) == Quad(w[3], w[7], w[11], w[15])
    ensures Columns(MixW, v, m, s) == w
  {
    hide MixW;
  }

  /** The columns of one grid lead to another, with the message words of the row named. */
  lemma ColumnsTo(v: Grid, w: Grid, m: seq<bv64>, s: Row, x0: bv64, x1: bv64, x2: bv64, x3: bv64, x4: bv64, x5: bv64,
                  x6: bv64, x7: bv64)
    requires |m| == 16 && m[s[0]] == x0 && m[s[1]] == x1 && m[s[2]] == x2 && m[s[3]] == x3
    requires m[s[4]] == x4 && m[s[5]] == x5 && m[s[6]] == x6 && m[s[7]] == x7
    requires MixW(v.a0, v.b0, v.c0, v.d0, x0, x1) == Quad(w.a0, w.b0, w.c0, w.d0)
    requires MixW(v.a1, v.b1, v.c1, v.d1, x2, x3) == Quad(w.a1, w.b1, w.c1, w.d1)
    requires MixW(v.a2, v.b2, v.c2, v.d2, x4, x5) == Quad(w.a2, w.b2, w.c2, w.d2)
    requires MixW(v.a3, v.b3, v.c3, v.d3, x6, x7) == Quad(w.a3, w.b3, w.c3, w.d3)
    ensures Columns(MixW, v.Flat(), m, s) == w.Flat()
  {
    v.Cells();
    w.Cells();
    hide MixW, Grid.Flat, Columns, Diagonals;
    ColumnsOf(v.Flat(), m, s, w.Flat());
  }

  lemma DiagonalsOf(v: seq<bv64>, m: seq<bv64>, s: Row, w: seq<bv64>)
    requires |v| == 16 && |m| == 16 && |w| == 16
    requires MixW(v[0], v[5], v[10], v[15], m[s[8]], m[s[9]]) == Quad(w[0], w[5], w[10], w[15])
    requires MixW(v[1], v[6], v[11], v[12], m[s[10]], m[s[11]]) == Quad(w[1], w[6], w[11], w[12])
    requires MixW(v[2], v[7], v[8], v[13], m[s[12]], m[s[13]]) == Quad(w[2], w[7], w[8], w[13])
    requires MixW(v[3], v[4], v[9], v[14], m[s[14]], m[s[15]]) == Quad(w[3], w[4], w[9], w[14])
    ensures Diagonals(MixW, v, m, s) == w
  {
    hide MixW;
  }

  /** The diagonals likewise. */
  lemma DiagonalsTo(v: Grid, w: Grid, m: seq<bv64>, s: Row, x0: bv64, x1: bv64, x2: bv64, x3: bv64, x4: bv64, x5: bv64,
                    x6: bv64, x7: bv64)
    requires |m| == 16 && m[s[8]] == x0 && m[s[9]] == x1 && m[s[10]] == x2 && m[s[11]] == x3
    requires m[s[12]] == x4 && m[s[13]] == x5 && m[s[14]] == x6 && m[s[15]] == x7
    requires MixW(v.a0, v.b1, v.c2, v.d3, x0, x1) == Quad(w.a0, w.b1, w.c2, w.d3)
    requires MixW(v.a1, v.b2, v.c3, v.d0, x2, x3) == Quad(w.a1, w.b2, w.c3, w.d0)
    requires MixW(v.a2, v.b3, v.c0, v.d1, x4, x5) == Quad(w.a2, w.b3, w.c0, w.d1)
    requires MixW(v.a3, v.b0, v.c1, v.d2, x6, x7) == Quad(w.a3, w.b0, w.c1, w.d2)
    ensures Diagonals(MixW, v.Flat(), m, s) == w.Flat()
  {
    v.Cells();
    w.Cells();
    hide MixW, Grid.Flat, Columns, Diagonals;
    DiagonalsOf(v.Flat(), m, s, w.Flat());
  }

  lemma Round0()
    ensures Diagonals(MixW, Columns(MixW, START.Flat(), WORDS, S0), WORDS, S0) == D0.Flat()
  {
    hide Columns, Diagonals;
    ColumnsTo(START, C0, WORDS, S0, M.a0, M.a1, M.a2, M.a3, M.b0, M.b1, M.b2, M.b3);
    DiagonalsTo(C0, D0, WORDS, S0, M.c0, M.c1, M.c2, M.c3, M.d0, M.d1, M.d2, M.d3);
  }

  lemma Round1()
    ensures Diagonals(MixW, Columns(MixW, D0.Flat(), WORDS, S1), WORDS, S1) == D1.Flat()
  {
    hide Columns, Diagonals;
    ColumnsTo(D0, C1, WORDS, S1, M.d2, M.c2, M.b0, M.c0, M.c1, M.d3, M.d1, M.b2);
    DiagonalsTo(C1, D1, WORDS, S1, M.a1, M.d0, M.a0, M.a2, M.c3, M.b3, M.b1, M.a3);
  }

  lemma Round2()
    ensures Diagonals(MixW, Columns(MixW, D1.Flat(), WORDS, S2), WORDS, S2) == D2.Flat()
  {
    hide Columns, Diagonals;
    ColumnsTo(D1, C2, WORDS, S2, M.c3, M.c0, M.d0, M.a0, M.b1, M.a2, M.d3, M.d1);
    DiagonalsTo(C2, D2, WORDS, S2, M.c2, M.d2, M.a3, M.b2, M.b3, M.a1, M.c1, M.b0);
  }

  lemma Round3()
    ensures Diagonals(MixW, Columns(MixW, D2.Flat(), WORDS, S3), WORDS, S3) == D3.Flat()
  {
    hide Columns, Diagonals;
    ColumnsTo(D2, C3, WORDS, S3, M.b3, M.c1, M.a3, M.a1, M.d1, M.d0, M.c3, M.d2);
    DiagonalsTo(C3, D3, WORDS, S3, M.a2, M.b2, M.b1, M.c2, M.b0, M.a0, M.d3, M.c0);
  }

  lemma Round4()
    ensures Diagonals(MixW, Columns(MixW, D3.Flat(), WORDS, S4), WORDS, S4) == D4.Flat()
  {
    hide Columns, Diagonals;
    ColumnsTo(D3, C4, WORDS, S4, M.c1, M.a0, M.b1, M.b3, M.a2, M.b0, M.c2, M.d3);
    DiagonalsTo(C4, D4, WORDS, S4, M.d2, M.a1, M.c3, M.d0, M.b2, M.c0, M.a3, M.d1);
  }

  lemma Round5()
    ensures Diagonals(MixW, Columns(MixW, D4.Flat(), WORDS, S5), WORDS, S5) == D5.Flat()
  {
    hide Columns, Diagonals;
    ColumnsTo(D4, C5, WORDS, S5, M.a2, M.d0, M.b2, M.c2, M.a0, M.c3, M.c0, M.a3);
    DiagonalsTo(C5, D5, WORDS, S5, M.b0, M.d1, M.b3, M.b1, M.d3, M.d2, M.a1, M.c1);
  }

  lemma Round6()
    ensures Diagonals(MixW, Columns(MixW, D5.Flat(), WORDS, S6), WORDS, S6) == D6.Flat()
  {
    hide Columns, Diagonals;
    ColumnsTo(D5, C6, WORDS, S6, M.d0, M.b1, M.a1, M.d3, M.d2, M.d1, M.b0, M.c2);
    DiagonalsTo(C6, D6, WORDS, S6, M.a0, M.b3, M.b2, M.a3, M.c1, M.a2, M.c0, M.c3);
  }

  lemma Round7()
    ensures Diagonals(MixW, Columns(MixW, D6.Flat(), WORDS, S7), WORDS, S7) == D7.Flat()
  {
    hide Columns, Diagonals;
    ColumnsTo(D6, C7, WORDS, S7, M.d1, M.c3, M.b3, M.d2, M.d0, M.a1, M.a3, M.c1);
    DiagonalsTo(C7, D7, WORDS, S7, M.b1, M.a0, M.d3, M.b0, M.c0, M.b2, M.a2, M.c2);
  }

  lemma Round8()
    ensures Diagonals(MixW, Columns(MixW, D7.Flat(), WORDS, S8), WORDS, S8) == D8.Flat()
  {
    hide Columns, Diagonals;
    ColumnsTo(D7, C8, WORDS, S8, M.b2, M.d3, M.d2, M.c1, M.c3, M.a3, M.a0, M.c0);
    DiagonalsTo(C8, D8, WORDS, S8, M.d0, M.a2, M.d1, M.b3, M.a1, M.b0, M.c2, M.b1);
  }

  lemma Round9()
    ensures Diagonals(MixW, Columns(MixW, D8.Flat(), WORDS, S9), WORDS, S9) == D9.Flat()
  {
    hide Columns, Diagonals;
    ColumnsTo(D8, C9, WORDS, S9, M.c2, M.a2, M.c0, M.b0, M.b3, M.b2, M.a1, M.b1);
    DiagonalsTo(C9, D9, WORDS, S9, M.d3, M.c3, M.c1, M.d2, M.a3, M.d0, M.d1, M.a0);
  }

  lemma Round10()
    ensures Diagonals(MixW, Columns(MixW, D9.Flat(), WORDS, S0), WORDS, S0) == D10.Flat()
  {
    hide Columns, Diagonals;
    ColumnsTo(D9, C10, WORDS, S0, M.a0, M.a1, M.a2, M.a3, M.b0, M.b1, M.b2, M.b3);
    DiagonalsTo(C10, D10, WORDS, S0, M.c0, M.c1, M.c2, M.c3, M.d0, M.d1, M.d2, M.d3);
  }

  lemma Round11()
    ensures Diagonals(MixW, Columns(MixW, D10.Flat(), WORDS, S1), WORDS, S1) == D11.Flat()
  {
    hide Columns, Diagonals;
    ColumnsTo(D10, C11, WORDS, S1, M.d2, M.c2, M.b0, M.c0, M.c1, M.d3, M.d1, M.b2);
    DiagonalsTo(C11, D11, WORDS, S1, M.a1, M.d0, M.a0, M.a2, M.c3, M.b3, M.b1, M.a3);
  }

  lemma AllRounds()
    ensures Rounds(MixW, START.Flat(), WORDS, 12) == D11.Flat()
  {
    hide Rounds, Columns, Diagonals, MixW, Grid.Flat;
    RoundStep(MixW, START.Flat(), WORDS, 0);
    Round0();
    RoundStep(MixW, START.Flat(), WORDS, 1);
    Round1();
    RoundStep(MixW, START.Flat(), WORDS, 2);
    Round2();
    RoundStep(MixW, START.Flat(), WORDS, 3);
    Round3();
    RoundStep(MixW, START.Flat(), WORDS, 4);
    Round4();
    RoundStep(MixW, START.Flat(), WORDS, 5);
    Round5();
    RoundStep(MixW, START.Flat(), WORDS, 6);
    Round6();
    RoundStep(MixW, START.Flat(), WORDS, 7);
    Round7();
    RoundStep(MixW, START.Flat(), WORDS, 8);
    Round8();
    RoundStep(MixW, START.Flat(), WORDS, 9);
    Round9();
    RoundStep(MixW, START.Flat(), WORDS, 10);
    Round10();
    RoundStep(MixW, START.Flat(), WORDS, 11);
    Round11();
  }

  // ---------- Numbers written out ----------

  lemma Spelled(b: bv64, p: Bytes, v: u64)
    requires [Octet(b), Octet(b >> 8), Octet(b >> 16), Octet(b >> 24), Octet(b >> 32), Octet(b >> 40), Octet(b >> 48),
              Octet(b >> 56)] == p
    requires v == p[0] as int + 256 * (p[1] as int + 256 * (p[2] as int + 256 * (p[3] as int + 256 * (p[4] as int
                  + 256 * (p[5] as int + 256 * (p[6] as int + 256 * p[7] as int))))))
    ensures Number(b) == v
  {
    hide Octet, Number;
    Written(b, p);
    ListedNumber(p);
  }

  predicate Denotes(b: bv64, v: u64) {
    Number(b) == v
  }

  lemma Initials0()
    ensures Denotes(0x6a09_e667_f3bc_c908, IV()[0]) && Denotes(0xbb67_ae85_84ca_a73b, IV()[1])
  {
    hide Number;
    Spelled(0x6a09_e667_f3bc_c908, [0x08, 0xc9, 0xbc, 0xf3, 0x67, 0xe6, 0x09, 0x6a], 0x6a09_e667_f3bc_c908);
    Spelled(0xbb67_ae85_84ca_a73b, [0x3b, 0xa7, 0xca, 0x84, 0x85, 0xae, 0x67, 0xbb], 0xbb67_ae85_84ca_a73b);
  }

  lemma Initials1()
    ensures Denotes(0x3c6e_f372_fe94_f82b, IV()[2]) && Denotes(0xa54f_f53a_5f1d_36f1, IV()[3])
  {
    hide Number;
    Spelled(0x3c6e_f372_fe94_f82b, [0x2b, 0xf8, 0x94, 0xfe, 0x72, 0xf3, 0x6e, 0x3c], 0x3c6e_f372_fe94_f82b);
    Spelled(0xa54f_f53a_5f1d_36f1, [0xf1, 0x36, 0x1d, 0x5f, 0x3a, 0xf5, 0x4f, 0xa5], 0xa54f_f53a_5f1d_36f1);
  }

  lemma Initials2()
    ensures Denotes(0x510e_527f_ade6_82d1, IV()[4]) && Denotes(0x9b05_688c_2b3e_6c1f, IV()[5])
  {
    hide Number;
    Spelled(0x510e_527f_ade6_82d1, [0xd1, 0x82, 0xe6, 0xad, 0x7f, 0x52, 0x0e, 0x51], 0x510e_527f_ade6_82d1);
    Spelled(0x9b05_688c_2b3e_6c1f, [0x1f, 0x6c, 0x3e, 0x2b, 0x8c, 0x68, 0x05, 0x9b], 0x9b05_688c_2b3e_6c1f);
  }

  lemma Initials3()
    ensures Denotes(0x1f83_d9ab_fb41_bd6b, IV()[6]) && Denotes(0x5be0_cd19_137e_2179, IV()[7])
  {
    hide Number;
    Spelled(0x1f83_d9ab_fb41_bd6b, [0x6b, 0xbd, 0x41, 0xfb, 0xab, 0xd9, 0x83, 0x1f], 0x1f83_d9ab_fb41_bd6b);
    Spelled(0x5be0_cd19_137e_2179, [0x79, 0x21, 0x7e, 0x13, 0x19, 0xcd, 0xe0, 0x5b], 0x5be0_cd19_137e_2179);
  }

  lemma Constants()
    ensures Denotes(0x0101_0020, PARAMETER) && Denotes(128, 128) && Denotes(0xffff_ffff_ffff_ffff, TWO64 - 1)
  {
    Spelled(0x0101_0020, [0x20, 0x00, 0x01, 0x01, 0x00, 0x00, 0x00, 0x00], PARAMETER);
    Spelled(128, [0x80, 0x00, 0x00, 0x00, 0x00, 0x00, 0x00, 0x00], 128);
    Spelled(0xffff_ffff_ffff_ffff, [0xff, 0xff, 0xff, 0xff, 0xff, 0xff, 0xff, 0xff], TWO64 - 1);
    hide Number;
  }

  lemma Xored(b: bv64, c: bv64, d: bv64, x: u64, y: u64)
    requires Denotes(b, x) && Denotes(c, y) && d == Differ(b, c)
    ensures Denotes(d, Xor64(x, y))
  {
    hide Number, Differ, Xor64;
    Difference(b, c);
  }

  lemma Mapped(g: Grid, v: seq<u64>)
    requires |v| == 16
    requires Denotes(g.a0, v[0]) && Denotes(g.a1, v[1]) && Denotes(g.a2, v[2]) && Denotes(g.a3, v[3])
    requires Denotes(g.b0, v[4]) && Denotes(g.b1, v[5]) && Denotes(g.b2, v[6]) && Denotes(g.b3, v[7])
    requires Denotes(g.c0, v[8]) && Denotes(g.c1, v[9]) && Denotes(g.c2, v[10]) && Denotes(g.c3, v[11])
    requires Denotes(g.d0, v[12]) && Denotes(g.d1, v[13]) && Denotes(g.d2, v[14]) && Denotes(g.d3, v[15])
    ensures Map(Number, g.Flat()) == v
  {
    g.Cells();
    hide Number, Grid.Flat;
    var u := g.Flat();
    assert forall i :: 0 <= i < 16 ==> Number(u[i]) == v[i];
  }

  lemma VectorAt()
    ensures var (iv, v) := (IV(), OneBlockVector(128));
            && v[0] == Xor64(iv[0], PARAMETER) && v[1] == iv[1] && v[2] == iv[2] && v[3] == iv[3]
            && v[4] == iv[4] && v[5] == iv[5] && v[6] == iv[6] && v[7] == iv[7]
            && v[8] == iv[0] && v[9] == iv[1] && v[10] == iv[2] && v[11] == iv[3]
            && v[12] == Xor64(iv[4], 128) && v[13] == iv[5] && v[14] == Xor64(iv[6], TWO64 - 1) && v[15] == iv[7]
  {
    hide IV, Xor64;
  }

  lemma StartXored()
    ensures Denotes(START.a0, Xor64(IV()[0], PARAMETER)) && Denotes(START.d0, Xor64(IV()[4], 128))
    ensures Denotes(START.d2, Xor64(IV()[6], TWO64 - 1))
  {
    hide Denotes, IV, Xor64;
    Constants();
    Initials0();
    Initials2();
    Initials3();
    Xored(0x6a09_e667_f3bc_c908, 0x0101_0020, START.a0, IV()[0], PARAMETER);
    Xored(0x510e_527f_ade6_82d1, 128, START.d0, IV()[4], 128);
    Xored(0x1f83_d9ab_fb41_bd6b, 0xffff_ffff_ffff_ffff, START.d2, IV()[6], TWO64 - 1);
  }

  /** The start is the one-block vector for 128 bytes. */
  lemma StartIs()
    ensures Map(Number, START.Flat()) == OneBlockVector(128)
  {
    hide Denotes, IV, OneBlockVector, Xor64, Grid.Flat;
    Initials0();
    Initials1();
    Initials2();
    Initials3();
    StartXored();
    VectorAt();
    Mapped(START, OneBlockVector(128));
  }

  lemma NotIs(x: u64)
    ensures Not64(x) == Xor64(x, TWO64 - 1)
  {
    hide Xor;
  }

  lemma BlockAt(i: nat)
    requires i < 16
    ensures Pad(Message())[8 * i..8 * i + 8]
         == [8 * i, 8 * i + 1, 8 * i + 2, 8 * i + 3, 8 * i + 4, 8 * i + 5, 8 * i + 6, 8 * i + 7]
  {
  }

  lemma WordIs(i: nat, b: bv64)
    requires i < 16
    requires [Octet(b), Octet(b >> 8), Octet(b >> 16), Octet(b >> 24), Octet(b >> 32), Octet(b >> 40), Octet(b >> 48),
              Octet(b >> 56)]
          == [8 * i, 8 * i + 1, 8 * i + 2, 8 * i + 3, 8 * i + 4, 8 * i + 5, 8 * i + 6, 8 * i + 7]
    ensures Denotes(b, Words(Pad(Message()))[i])
  {
    hide Octet, Number, Pad, Message;
    BlockAt(i);
    Written(b, Pad(Message())[8 * i..8 * i + 8]);
  }

  lemma Words0()
    ensures var w := Words(Pad(Message()));
            && Denotes(M.a0, w[0]) && Denotes(M.a1, w[1])
            && Denotes(M.a2, w[2]) && Denotes(M.a3, w[3])
  {
    hide Denotes, Words, Pad, Message;
    WordIs(0, 0x0706_0504_0302_0100);
    WordIs(1, 0x0f0e_0d0c_0b0a_0908);
    WordIs(2, 0x1716_1514_1312_1110);
    WordIs(3, 0x1f1e_1d1c_1b1a_1918);
  }

  lemma Words1()
    ensures var w := Words(Pad(Message()));
            && Denotes(M.b0, w[4]) && Denotes(M.b1, w[5])
            && Denotes(M.b2, w[6]) && Denotes(M.b3, w[7])
  {
    hide Denotes, Words, Pad, Message;
    WordIs(4, 0x2726_2524_2322_2120);
    WordIs(5, 0x2f2e_2d2c_2b2a_2928);
    WordIs(6, 0x3736_3534_3332_3130);
    WordIs(7, 0x3f3e_3d3c_3b3a_3938);
  }

  lemma Words2()
    ensures var w := Words(Pad(Message()));
            && Denotes(M.c0, w[8]) && Denotes(M.c1, w[9])
            && Denotes(M.c2, w[10]) && Denotes(M.c3, w[11])
  {
    hide Denotes, Words, Pad, Message;
    WordIs(8, 0x4746_4544_4342_4140);
    WordIs(9, 0x4f4e_4d4c_4b4a_4948);
    WordIs(10, 0x5756_5554_5352_5150);
    WordIs(11, 0x5f5e_5d5c_5b5a_5958);
  }

  lemma Words3()
    ensures var w := Words(Pad(Message()));
            && Denotes(M.d0, w[12]) && Denotes(M.d1, w[13])
            && Denotes(M.d2, w[14]) && Denotes(M.d3, w[15])
  {
    hide Denotes, Words, Pad, Message;
    WordIs(12, 0x6766_6564_6362_6160);
    WordIs(13, 0x6f6e_6d6c_6b6a_6968);
    WordIs(14, 0x7776_7574_7372_7170);
    WordIs(15, 0x7f7e_7d7c_7b7a_7978);
  }

  lemma MessageIs()
    ensures Map(Number, WORDS) == Words(Pad(Message()))
  {
    hide Denotes, Words, Pad, Message, Grid.Flat;
    Words0();
    Words1();
    Words2();
    Words3();
    Mapped(M, Words(Pad(Message())));
  }

  // ---------- The digest ----------

  lemma WordOut(h: bv64, v: bv64, w: bv64, r: bv64, p: Bytes, f: u64)
    requires r == Differ(Differ(h, v), w) && f == Xor64(Xor64(Number(h), Number(v)), Number(w))
    requires [Octet(r), Octet(r >> 8), Octet(r >> 16), Octet(r >> 24), Octet(r >> 32), Octet(r >> 40), Octet(r >> 48),
              Octet(r >> 56)] == p
    ensures LeBytes(f, 8) == p
  {
    hide Octet, Number, Differ, Xor64, LeBytes;
    Difference(h, v);
    Difference(Differ(h, v), w);
    Written(r, p);
  }

  lemma FourWords(f: seq<u64>)
    requires |f| == 8
    ensures Digest(f) == LeBytes(f[0], 8) + LeBytes(f[1], 8) + LeBytes(f[2], 8) + LeBytes(f[3], 8)
  {
    hide LeBytes;
    assert FirstWords(f, 1) == LeBytes(f[0], 8);
    assert FirstWords(f, 2) == FirstWords(f, 1) + LeBytes(f[1], 8);
    assert FirstWords(f, 3) == FirstWords(f, 2) + LeBytes(f[2], 8);
  }

  lemma MapCells(v: Grid)
    ensures Map(Number, v.Flat())[0] == Number(v.a0) && Map(Number, v.Flat())[1] == Number(v.a1)
    ensures Map(Number, v.Flat())[2] == Number(v.a2) && Map(Number, v.Flat())[3] == Number(v.a3)
    ensures Map(Number, v.Flat())[8] == Number(v.c0) && Map(Number, v.Flat())[9] == Number(v.c1)
    ensures Map(Number, v.Flat())[10] == Number(v.c2) && Map(Number, v.Flat())[11] == Number(v.c3)
  {
    v.Cells();
    hide Number, Grid.Flat;
  }

  lemma StartsWithInitial()
    ensures forall i :: 0 <= i < 8 ==> OneBlockVector(128)[i] == Initial()[i]
  {
    hide IV, Xor64, Not64;
  }

  lemma Outputs()
    ensures var v := Map(Number, D11.Flat()); var f := Fold(Initial(), v);
            && LeBytes(f[0], 8) == [0xc3, 0x58, 0x2f, 0x71, 0xeb, 0xb2, 0xbe, 0x66]
            && LeBytes(f[1], 8) == [0xfa, 0x5d, 0xd7, 0x50, 0xf8, 0x0b, 0xaa, 0xe9]
            && LeBytes(f[2], 8) == [0x75, 0x54, 0xf3, 0xb0, 0x15, 0x66, 0x3c, 0x8b]
            && LeBytes(f[3], 8) == [0xe3, 0x77, 0xcf, 0xcb, 0x24, 0x88, 0xc1, 0xd1]
  {
    StartIs();
    StartsWithInitial();
    MapCells(START);
    MapCells(D11);
    hide Number, Map, OneBlockVector, Initial, Xor64, LeBytes, Grid.Flat;
    var f := Fold(Initial(), Map(Number, D11.Flat()));
    WordOut(START.a0, D11.a0, D11.c0, 0x66be_b2eb_712f_58c3, [0xc3, 0x58, 0x2f, 0x71, 0xeb, 0xb2, 0xbe, 0x66], f[0]);
    WordOut(START.a1, D11.a1, D11.c1, 0xe9aa_0bf8_50d7_5dfa, [0xfa, 0x5d, 0xd7, 0x50, 0xf8, 0x0b, 0xaa, 0xe9], f[1]);
    WordOut(START.a2, D11.a2, D11.c2, 0x8b3c_6615_b0f3_5475, [0x75, 0x54, 0xf3, 0xb0, 0x15, 0x66, 0x3c, 0x8b], f[2]);
    WordOut(START.a3, D11.a3, D11.c3, 0xd1c1_8824_cbcf_77e3, [0xe3, 0x77, 0xcf, 0xcb, 0x24, 0x88, 0xc1, 0xd1], f[3]);
  }

  /** The BLAKE2b-256 digest of the bytes 0 to 127. */
  lemma DigestOfCountingBytes()
    ensures HashOf(Message())
         == [0xc3, 0x58, 0x2f, 0x71, 0xeb, 0xb2, 0xbe, 0x66]
          + [0xfa, 0x5d, 0xd7, 0x50, 0xf8, 0x0b, 0xaa, 0xe9]
          + [0x75, 0x54, 0xf3, 0xb0, 0x15, 0x66, 0x3c, 0x8b]
          + [0xe3, 0x77, 0xcf, 0xcb, 0x24, 0x88, 0xc1, 0xd1]
  {
    hide Rounds, Number, Map, Words, OneBlockVector, Initial, LeBytes, Fold, Digest, Grid.Flat, MixW, Mix, HashOf;
    OneBlock(Message());
    RoundsAgree(START.Flat(), WORDS, ROUNDS);
    AllRounds();
    StartIs();
    MessageIs();
    Outputs();
    FourWords(Fold(Initial(), Map(Number, D11.Flat())));
  }
}
