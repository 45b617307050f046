/** The 257-entry Huffman code table (pkgs/microdoh3/src/huffman_table.rs; Appendix B of
    RFC 7541) and the proof that it is canonical: codes of one length are consecutive, and
    each length starts at twice the end of the previous one. */
module HuffmanTable {
  import opened Bytes

  const EOS: nat := 256

  datatype Code = Code(bits: nat, len: nat)

  /** Row `sym` of the table. */
  function Entry(sym: nat): Code
    requires sym <= EOS
  {
    match sym / 16
    case 0 => Entry0(sym)
    case 1 => Entry1(sym)
    case 2 => Entry2(sym)
    case 3 => Entry3(sym)
    case 4 => Entry4(sym)
    case 5 => Entry5(sym)
    case 6 => Entry6(sym)
    case 7 => Entry7(sym)
    case 8 => Entry8(sym)
    case 9 => Entry9(sym)
    case 10 => Entry10(sym)
    case 11 => Entry11(sym)
    case 12 => Entry12(sym)
    case 13 => Entry13(sym)
    case 14 => Entry14(sym)
    case 15 => Entry15(sym)
    case _ => Code(0x3fffffff, 30)
  }

  function Entry0(sym: nat): Code {
    match sym
    case 0 => Code(0x1ff8, 13) case 1 => Code(0x7fffd8, 23) case 2 => Code(0xfffffe2, 28) case 3 => Code(0xfffffe3, 28)
    case 4 => Code(0xfffffe4, 28) case 5 => Code(0xfffffe5, 28)
    case 6 => Code(0xfffffe6, 28) case 7 => Code(0xfffffe7, 28)
    case 8 => Code(0xfffffe8, 28) case 9 => Code(0xffffea, 24)
    case 10 => Code(0x3ffffffc, 30) case 11 => Code(0xfffffe9, 28)
    case 12 => Code(0xfffffea, 28) case 13 => Code(0x3ffffffd, 30)
    case 14 => Code(0xfffffeb, 28) case _ => Code(0xfffffec, 28)
  }

  function Entry1(sym: nat): Code {
    match sym
    case 16 => Code(0xfffffed, 28) case 17 => Code(0xfffffee, 28)
    case 18 => Code(0xfffffef, 28) case 19 => Code(0xffffff0, 28)
    case 20 => Code(0xffffff1, 28) case 21 => Code(0xffffff2, 28)
    case 22 => Code(0x3ffffffe, 30) case 23 => Code(0xffffff3, 28)
    case 24 => Code(0xffffff4, 28) case 25 => Code(0xffffff5, 28)
    case 26 => Code(0xffffff6, 28) case 27 => Code(0xffffff7, 28)
    case 28 => Code(0xffffff8, 28) case 29 => Code(0xffffff9, 28)
    case 30 => Code(0xffffffa, 28) case _ => Code(0xffffffb, 28)
  }

  function Entry2(sym: nat): Code {
    match sym
    case 32 => Code(0x14, 6) case 33 => Code(0x3f8, 10) case 34 => Code(0x3f9, 10) case 35 => Code(0xffa, 12)
    case 36 => Code(0x1ff9, 13) case 37 => Code(0x15, 6) case 38 => Code(0xf8, 8) case 39 => Code(0x7fa, 11)
    case 40 => Code(0x3fa, 10) case 41 => Code(0x3fb, 10) case 42 => Code(0xf9, 8) case 43 => Code(0x7fb, 11)
    case 44 => Code(0xfa, 8) case 45 => Code(0x16, 6) case 46 => Code(0x17, 6) case _ => Code(0x18, 6)
  }

  function Entry3(sym: nat): Code {
    match sym
    case 48 => Code(0x0, 5) case 49 => Code(0x1, 5) case 50 => Code(0x2, 5) case 51 => Code(0x19, 6)
    case 52 => Code(0x1a, 6) case 53 => Code(0x1b, 6) case 54 => Code(0x1c, 6) case 55 => Code(0x1d, 6)
    case 56 => Code(0x1e, 6) case 57 => Code(0x1f, 6) case 58 => Code(0x5c, 7) case 59 => Code(0xfb, 8)
    case 60 => Code(0x7ffc, 15) case 61 => Code(0x20, 6) case 62 => Code(0xffb, 12) case _ => Code(0x3fc, 10)
  }

  function Entry4(sym: nat): Code {
    match sym
    case 64 => Code(0x1ffa, 13) case 65 => Code(0x21, 6) case 66 => Code(0x5d, 7) case 67 => Code(0x5e, 7)
    case 68 => Code(0x5f, 7) case 69 => Code(0x60, 7) case 70 => Code(0x61, 7) case 71 => Code(0x62, 7)
    case 72 => Code(0x63, 7) case 73 => Code(0x64, 7) case 74 => Code(0x65, 7) case 75 => Code(0x66, 7)
    case 76 => Code(0x67, 7) case 77 => Code(0x68, 7) case 78 => Code(0x69, 7) case _ => Code(0x6a, 7)
  }

  function Entry5(sym: nat): Code {
    match sym
    case 80 => Code(0x6b, 7) case 81 => Code(0x6c, 7) case 82 => Code(0x6d, 7) case 83 => Code(0x6e, 7)
    case 84 => Code(0x6f, 7) case 85 => Code(0x70, 7) case 86 => Code(0x71, 7) case 87 => Code(0x72, 7)
    case 88 => Code(0xfc, 8) case 89 => Code(0x73, 7) case 90 => Code(0xfd, 8) case 91 => Code(0x1ffb, 13)
    case 92 => Code(0x7fff0, 19) case 93 => Code(0x1ffc, 13) case 94 => Code(0x3ffc, 14) case _ => Code(0x22, 6)
  }

  function Entry6(sym: nat): Code {
    match sym
    case 96 => Code(0x7ffd, 15) case 97 => Code(0x3, 5) case 98 => Code(0x23, 6) case 99 => Code(0x4, 5)
    case 100 => Code(0x24, 6) case 101 => Code(0x5, 5) case 102 => Code(0x25, 6) case 103 => Code(0x26, 6)
    case 104 => Code(0x27, 6) case 105 => Code(0x6, 5) case 106 => Code(0x74, 7) case 107 => Code(0x75, 7)
    case 108 => Code(0x28, 6) case 109 => Code(0x29, 6) case 110 => Code(0x2a, 6) case _ => Code(0x7, 5)
  }

  function Entry7(sym: nat): Code {
    match sym
    case 112 => Code(0x2b, 6) case 113 => Code(0x76, 7) case 114 => Code(0x2c, 6) case 115 => Code(0x8, 5)
    case 116 => Code(0x9, 5) case 117 => Code(0x2d, 6) case 118 => Code(0x77, 7) case 119 => Code(0x78, 7)
    case 120 => Code(0x79, 7) case 121 => Code(0x7a, 7) case 122 => Code(0x7b, 7) case 123 => Code(0x7ffe, 15)
    case 124 => Code(0x7fc, 11) case 125 => Code(0x3ffd, 14) case 126 => Code(0x1ffd, 13) case _ => Code(0xffffffc, 28)
  }

  function Entry8(sym: nat): Code {
    match sym
    case 128 => Code(0xfffe6, 20) case 129 => Code(0x3fffd2, 22)
    case 130 => Code(0xfffe7, 20) case 131 => Code(0xfffe8, 20)
    case 132 => Code(0x3fffd3, 22) case 133 => Code(0x3fffd4, 22)
    case 134 => Code(0x3fffd5, 22) case 135 => Code(0x7fffd9, 23)
    case 136 => Code(0x3fffd6, 22) case 137 => Code(0x7fffda, 23)
    case 138 => Code(0x7fffdb, 23) case 139 => Code(0x7fffdc, 23)
    case 140 => Code(0x7fffdd, 23) case 141 => Code(0x7fffde, 23)
    case 142 => Code(0xffffeb, 24) case _ => Code(0x7fffdf, 23)
  }

  function Entry9(sym: nat): Code {
    match sym
    case 144 => Code(0xffffec, 24) case 145 => Code(0xffffed, 24)
    case 146 => Code(0x3fffd7, 22) case 147 => Code(0x7fffe0, 23)
    case 148 => Code(0xffffee, 24) case 149 => Code(0x7fffe1, 23)
    case 150 => Code(0x7fffe2, 23) case 151 => Code(0x7fffe3, 23)
    case 152 => Code(0x7fffe4, 23) case 153 => Code(0x1fffdc, 21)
    case 154 => Code(0x3fffd8, 22) case 155 => Code(0x7fffe5, 23)
    case 156 => Code(0x3fffd9, 22) case 157 => Code(0x7fffe6, 23)
    case 158 => Code(0x7fffe7, 23) case _ => Code(0xffffef, 24)
  }

  function Entry10(sym: nat): Code {
    match sym
    case 160 => Code(0x3fffda, 22) case 161 => Code(0x1fffdd, 21)
    case 162 => Code(0xfffe9, 20) case 163 => Code(0x3fffdb, 22)
    case 164 => Code(0x3fffdc, 22) case 165 => Code(0x7fffe8, 23)
    case 166 => Code(0x7fffe9, 23) case 167 => Code(0x1fffde, 21)
    case 168 => Code(0x7fffea, 23) case 169 => Code(0x3fffdd, 22)
    case 170 => Code(0x3fffde, 22) case 171 => Code(0xfffff0, 24)
    case 172 => Code(0x1fffdf, 21) case 173 => Code(0x3fffdf, 22)
    case 174 => Code(0x7fffeb, 23) case _ => Code(0x7fffec, 23)
  }

  function Entry11(sym: nat): Code {
    match sym
    case 176 => Code(0x1fffe0, 21) case 177 => Code(0x1fffe1, 21)
    case 178 => Code(0x3fffe0, 22) case 179 => Code(0x1fffe2, 21)
    case 180 => Code(0x7fffed, 23) case 181 => Code(0x3fffe1, 22)
    case 182 => Code(0x7fffee, 23) case 183 => Code(0x7fffef, 23)
    case 184 => Code(0xfffea, 20) case 185 => Code(0x3fffe2, 22)
    case 186 => Code(0x3fffe3, 22) case 187 => Code(0x3fffe4, 22)
    case 188 => Code(0x7ffff0, 23) case 189 => Code(0x3fffe5, 22)
    case 190 => Code(0x3fffe6, 22) case _ => Code(0x7ffff1, 23)
  }

  function Entry12(sym: nat): Code {
    match sym
    case 192 => Code(0x3ffffe0, 26) case 193 => Code(0x3ffffe1, 26)
    case 194 => Code(0xfffeb, 20) case 195 => Code(0x7fff1, 19)
    case 196 => Code(0x3fffe7, 22) case 197 => Code(0x7ffff2, 23)
    case 198 => Code(0x3fffe8, 22) case 199 => Code(0x1ffffec, 25)
    case 200 => Code(0x3ffffe2, 26) case 201 => Code(0x3ffffe3, 26)
    case 202 => Code(0x3ffffe4, 26) case 203 => Code(0x7ffffde, 27)
    case 204 => Code(0x7ffffdf, 27) case 205 => Code(0x3ffffe5, 26)
    case 206 => Code(0xfffff1, 24) case _ => Code(0x1ffffed, 25)
  }

  function Entry13(sym: nat): Code {
    match sym
    case 208 => Code(0x7fff2, 19) case 209 => Code(0x1fffe3, 21)
    case 210 => Code(0x3ffffe6, 26) case 211 => Code(0x7ffffe0, 27)
    case 212 => Code(0x7ffffe1, 27) case 213 => Code(0x3ffffe7, 26)
    case 214 => Code(0x7ffffe2, 27) case 215 => Code(0xfffff2, 24)
    case 216 => Code(0x1fffe4, 21) case 217 => Code(0x1fffe5, 21)
    case 218 => Code(0x3ffffe8, 26) case 219 => Code(0x3ffffe9, 26)
    case 220 => Code(0xffffffd, 28) case 221 => Code(0x7ffffe3, 27)
    case 222 => Code(0x7ffffe4, 27) case _ => Code(0x7ffffe5, 27)
  }

  function Entry14(sym: nat): Code {
    match sym
    case 224 => Code(0xfffec, 20) case 225 => Code(0xfffff3, 24)
    case 226 => Code(0xfffed, 20) case 227 => Code(0x1fffe6, 21)
    case 228 => Code(0x3fffe9, 22) case 229 => Code(0x1fffe7, 21)
    case 230 => Code(0x1fffe8, 21) case 231 => Code(0x7ffff3, 23)
    case 232 => Code(0x3fffea, 22) case 233 => Code(0x3fffeb, 22)
    case 234 => Code(0x1ffffee, 25) case 235 => Code(0x1ffffef, 25)
    case 236 => Code(0xfffff4, 24) case 237 => Code(0xfffff5, 24)
    case 238 => Code(0x3ffffea, 26) case _ => Code(0x7ffff4, 23)
  }

  function Entry15(sym: nat): Code {
    match sym
    case 240 => Code(0x3ffffeb, 26) case 241 => Code(0x7ffffe6, 27)
    case 242 => Code(0x3ffffec, 26) case 243 => Code(0x3ffffed, 26)
    case 244 => Code(0x7ffffe7, 27) case 245 => Code(0x7ffffe8, 27)
    case 246 => Code(0x7ffffe9, 27) case 247 => Code(0x7ffffea, 27)
    case 248 => Code(0x7ffffeb, 27) case 249 => Code(0xffffffe, 28)
    case 250 => Code(0x7ffffec, 27) case 251 => Code(0x7ffffed, 27)
    case 252 => Code(0x7ffffee, 27) case 253 => Code(0x7ffffef, 27)
    case 254 => Code(0x7fffff0, 27) case _ => Code(0x3ffffee, 26)
  }

  // ----- canonical shape -----

  /** Smallest code of length `len`. */
  function FirstCode(len: nat): nat {
    match len
    case 5 => 0x0 case 6 => 0x14 case 7 => 0x5c case 8 => 0xf8
    case 9 => 0x1fc case 10 => 0x3f8 case 11 => 0x7fa case 12 => 0xffa
    case 13 => 0x1ff8 case 14 => 0x3ffc case 15 => 0x7ffc case 16 => 0xfffe
    case 17 => 0x1fffc case 18 => 0x3fff8 case 19 => 0x7fff0 case 20 => 0xfffe6
    case 21 => 0x1fffdc case 22 => 0x3fffd2 case 23 => 0x7fffd8 case 24 => 0xffffea
    case 25 => 0x1ffffec case 26 => 0x3ffffe0 case 27 => 0x7ffffde case 28 => 0xfffffe2
    case 29 => 0x1ffffffe case 30 => 0x3ffffffc
    case _ => 0
  }

  /** How many codes are shorter than `len`. */
  function Offset(len: nat): nat {
    match len
    case 5 => 0 case 6 => 10 case 7 => 36 case 8 => 68 case 9 => 74 case 10 => 74 case 11 => 79
    case 12 => 82 case 13 => 84 case 14 => 90 case 15 => 92 case 16 => 95 case 17 => 95 case 18 => 95
    case 19 => 95 case 20 => 98 case 21 => 106 case 22 => 119 case 23 => 145 case 24 => 174 case 25 => 186
    case 26 => 190 case 27 => 205 case 28 => 224 case 29 => 253 case 30 => 253
    case _ => 257
  }

  /** One past the largest code of length `len`. */
  function Limit(len: nat): int {
    FirstCode(len) + (Offset(len + 1) - Offset(len))
  }

  /** Symbols in code order. */
  function Ordered(rank: int): nat {
    match rank / 16
    case 0 => Ordered0(rank)
    case 1 => Ordered1(rank)
    case 2 => Ordered2(rank)
    case 3 => Ordered3(rank)
    case 4 => Ordered4(rank)
    case 5 => Ordered5(rank)
    case 6 => Ordered6(rank)
    case 7 => Ordered7(rank)
    case 8 => Ordered8(rank)
    case 9 => Ordered9(rank)
    case 10 => Ordered10(rank)
    case 11 => Ordered11(rank)
    case 12 => Ordered12(rank)
    case 13 => Ordered13(rank)
    case 14 => Ordered14(rank)
    case 15 => Ordered15(rank)
    case _ => EOS
  }

  function Ordered0(rank: int): nat {
    match rank
    case 0 => 48 case 1 => 49 case 2 => 50 case 3 => 97 case 4 => 99 case 5 => 101 case 6 => 105 case 7 => 111
    case 8 => 115 case 9 => 116 case 10 => 32 case 11 => 37 case 12 => 45 case 13 => 46 case 14 => 47 case _ => 51
  }

  function Ordered1(rank: int): nat {
    match rank
    case 16 => 52 case 17 => 53 case 18 => 54 case 19 => 55 case 20 => 56 case 21 => 57 case 22 => 61 case 23 => 65
    case 24 => 95 case 25 => 98 case 26 => 100 case 27 => 102 case 28 => 103 case 29 => 104 case 30 => 108 case _ => 109
  }

  function Ordered2(rank: int): nat {
    match rank
    case 32 => 110 case 33 => 112 case 34 => 114 case 35 => 117 case 36 => 58 case 37 => 66 case 38 => 67 case 39 => 68
    case 40 => 69 case 41 => 70 case 42 => 71 case 43 => 72 case 44 => 73 case 45 => 74 case 46 => 75 case _ => 76
  }

  function Ordered3(rank: int): nat {
    match rank
    case 48 => 77 case 49 => 78 case 50 => 79 case 51 => 80 case 52 => 81 case 53 => 82 case 54 => 83 case 55 => 84
    case 56 => 85 case 57 => 86 case 58 => 87 case 59 => 89 case 60 => 106 case 61 => 107 case 62 => 113 case _ => 118
  }

  function Ordered4(rank: int): nat {
    match rank
    case 64 => 119 case 65 => 120 case 66 => 121 case 67 => 122 case 68 => 38 case 69 => 42 case 70 => 44 case 71 => 59
    case 72 => 88 case 73 => 90 case 74 => 33 case 75 => 34 case 76 => 40 case 77 => 41 case 78 => 63 case _ => 39
  }

  function Ordered5(rank: int): nat {
    match rank
    case 80 => 43 case 81 => 124 case 82 => 35 case 83 => 62 case 84 => 0 case 85 => 36 case 86 => 64 case 87 => 91
    case 88 => 93 case 89 => 126 case 90 => 94 case 91 => 125 case 92 => 60 case 93 => 96 case 94 => 123 case _ => 92
  }

  function Ordered6(rank: int): nat {
    match rank
    case 96 => 195 case 97 => 208 case 98 => 128 case 99 => 130
    case 100 => 131 case 101 => 162 case 102 => 184 case 103 => 194
    case 104 => 224 case 105 => 226 case 106 => 153 case 107 => 161
    case 108 => 167 case 109 => 172 case 110 => 176 case _ => 177
  }

  function Ordered7(rank: int): nat {
    match rank
    case 112 => 179 case 113 => 209 case 114 => 216 case 115 => 217
    case 116 => 227 case 117 => 229 case 118 => 230 case 119 => 129
    case 120 => 132 case 121 => 133 case 122 => 134 case 123 => 136
    case 124 => 146 case 125 => 154 case 126 => 156 case _ => 160
  }

  function Ordered8(rank: int): nat {
    match rank
    case 128 => 163 case 129 => 164 case 130 => 169 case 131 => 170
    case 132 => 173 case 133 => 178 case 134 => 181 case 135 => 185
    case 136 => 186 case 137 => 187 case 138 => 189 case 139 => 190
    case 140 => 196 case 141 => 198 case 142 => 228 case _ => 232
  }

  function Ordered9(rank: int): nat {
    match rank
    case 144 => 233 case 145 => 1 case 146 => 135 case 147 => 137
    case 148 => 138 case 149 => 139 case 150 => 140 case 151 => 141
    case 152 => 143 case 153 => 147 case 154 => 149 case 155 => 150
    case 156 => 151 case 157 => 152 case 158 => 155 case _ => 157
  }

  function Ordered10(rank: int): nat {
    match rank
    case 160 => 158 case 161 => 165 case 162 => 166 case 163 => 168
    case 164 => 174 case 165 => 175 case 166 => 180 case 167 => 182
    case 168 => 183 case 169 => 188 case 170 => 191 case 171 => 197
    case 172 => 231 case 173 => 239 case 174 => 9 case _ => 142
  }

  function Ordered11(rank: int): nat {
    match rank
    case 176 => 144 case 177 => 145 case 178 => 148 case 179 => 159
    case 180 => 171 case 181 => 206 case 182 => 215 case 183 => 225
    case 184 => 236 case 185 => 237 case 186 => 199 case 187 => 207
    case 188 => 234 case 189 => 235 case 190 => 192 case _ => 193
  }

  function Ordered12(rank: int): nat {
    match rank
    case 192 => 200 case 193 => 201 case 194 => 202 case 195 => 205
    case 196 => 210 case 197 => 213 case 198 => 218 case 199 => 219
    case 200 => 238 case 201 => 240 case 202 => 242 case 203 => 243
    case 204 => 255 case 205 => 203 case 206 => 204 case _ => 211
  }

  function Ordered13(rank: int): nat {
    match rank
    case 208 => 212 case 209 => 214 case 210 => 221 case 211 => 222
    case 212 => 223 case 213 => 241 case 214 => 244 case 215 => 245
    case 216 => 246 case 217 => 247 case 218 => 248 case 219 => 250
    case 220 => 251 case 221 => 252 case 222 => 253 case _ => 254
  }

  function Ordered14(rank: int): nat {
    match rank
    case 224 => 2 case 225 => 3 case 226 => 4 case 227 => 5 case 228 => 6 case 229 => 7 case 230 => 8 case 231 => 11
    case 232 => 12 case 233 => 14 case 234 => 15 case 235 => 16
    case 236 => 17 case 237 => 18 case 238 => 19 case _ => 20
  }

  function Ordered15(rank: int): nat {
    match rank
    case 240 => 21 case 241 => 23 case 242 => 24 case 243 => 25
    case 244 => 26 case 245 => 27 case 246 => 28 case 247 => 29
    case 248 => 30 case 249 => 31 case 250 => 127 case 251 => 220
    case 252 => 249 case 253 => 10 case 254 => 13 case _ => 22
  }

  lemma LengthSteps(len: nat)
    requires 5 <= len <= 30
    ensures Offset(len) <= Offset(len + 1)
    ensures len < 30 ==> FirstCode(len + 1) == 2 * Limit(len)
    ensures FirstCode(5) == 0 && Limit(30) == 0x4000_0000
  {
  }

  /** Position of a symbol in code order. */
  function Rank(sym: nat): int
    requires sym <= EOS
  {
    var e := Entry(sym);
    Offset(e.len) + (e.bits - FirstCode(e.len))
  }

  predicate RowOk(sym: nat)
    requires sym <= EOS
  {
    var e := Entry(sym);
    5 <= e.len <= 30 && FirstCode(e.len) <= e.bits < Limit(e.len) && Ordered(Rank(sym)) == sym
  }


  lemma Rows0(sym: nat) requires 0 <= sym < 8 ensures RowOk(sym) {}
  lemma Rows1(sym: nat) requires 8 <= sym < 16 ensures RowOk(sym) {}
  lemma Rows2(sym: nat) requires 16 <= sym < 24 ensures RowOk(sym) {
    if sym < 20 { Rows2a(sym); } else { Rows2b(sym); }
  }
  lemma Rows2a(sym: nat) requires 16 <= sym < 20 ensures RowOk(sym) {}
  lemma Rows2b(sym: nat) requires 20 <= sym < 24 ensures RowOk(sym) {}
  lemma Rows3(sym: nat) requires 24 <= sym < 32 ensures RowOk(sym) {}
  lemma Rows4(sym: nat) requires 32 <= sym < 40 ensures RowOk(sym) {}
  lemma Rows5(sym: nat) requires 40 <= sym < 48 ensures RowOk(sym) {}
  lemma Rows6(sym: nat) requires 48 <= sym < 56 ensures RowOk(sym) {}
  lemma Rows7(sym: nat) requires 56 <= sym < 64 ensures RowOk(sym) {}
  lemma Rows8(sym: nat) requires 64 <= sym < 72 ensures RowOk(sym) {}
  lemma Rows9(sym: nat) requires 72 <= sym < 80 ensures RowOk(sym) {}
  lemma Rows10(sym: nat) requires 80 <= sym < 88 ensures RowOk(sym) {}
  lemma Rows11(sym: nat) requires 88 <= sym < 96 ensures RowOk(sym) {}
  lemma Rows12(sym: nat) requires 96 <= sym < 104 ensures RowOk(sym) {}
  lemma Rows13(sym: nat) requires 104 <= sym < 112 ensures RowOk(sym) {}
  lemma Rows14(sym: nat) requires 112 <= sym < 120 ensures RowOk(sym) {}
  lemma Rows15(sym: nat) requires 120 <= sym < 128 ensures RowOk(sym) {}
  lemma Rows16(sym: nat) requires 128 <= sym < 136 ensures RowOk(sym) {}
  lemma Rows17(sym: nat) requires 136 <= sym < 144 ensures RowOk(sym) {}
  lemma Rows18(sym: nat) requires 144 <= sym < 152 ensures RowOk(sym) {}
  lemma Rows19(sym: nat) requires 152 <= sym < 160 ensures RowOk(sym) {}
  lemma Rows20(sym: nat) requires 160 <= sym < 168 ensures RowOk(sym) {}
  lemma Rows21(sym: nat) requires 168 <= sym < 176 ensures RowOk(sym) {}
  lemma Rows22(sym: nat) requires 176 <= sym < 184 ensures RowOk(sym) {}
  lemma Rows23(sym: nat) requires 184 <= sym < 192 ensures RowOk(sym) {}
  lemma Rows24(sym: nat) requires 192 <= sym < 200 ensures RowOk(sym) {}
  lemma Rows25(sym: nat) requires 200 <= sym < 208 ensures RowOk(sym) {}
  lemma Rows26(sym: nat) requires 208 <= sym < 216 ensures RowOk(sym) {}
  lemma Rows27(sym: nat) requires 216 <= sym < 224 ensures RowOk(sym) {}
  lemma Rows28(sym: nat) requires 224 <= sym < 232 ensures RowOk(sym) {}
  lemma Rows29(sym: nat) requires 232 <= sym < 240 ensures RowOk(sym) {}
  lemma Rows30(sym: nat) requires 240 <= sym < 248 ensures RowOk(sym) {}
  lemma Rows31(sym: nat) requires 248 <= sym < 256 ensures RowOk(sym) {}
  lemma RowsEos() ensures RowOk(256) {}

  lemma TableCanonical(sym: nat)
    requires sym <= EOS
    ensures RowOk(sym)
  {
    hide RowOk;
    match sym / 8
    case 0 => Rows0(sym); case 1 => Rows1(sym); case 2 => Rows2(sym); case 3 => Rows3(sym);
    case 4 => Rows4(sym); case 5 => Rows5(sym); case 6 => Rows6(sym); case 7 => Rows7(sym);
    case 8 => Rows8(sym); case 9 => Rows9(sym); case 10 => Rows10(sym); case 11 => Rows11(sym);
    case 12 => Rows12(sym); case 13 => Rows13(sym); case 14 => Rows14(sym); case 15 => Rows15(sym);
    case 16 => Rows16(sym); case 17 => Rows17(sym); case 18 => Rows18(sym); case 19 => Rows19(sym);
    case 20 => Rows20(sym); case 21 => Rows21(sym); case 22 => Rows22(sym); case 23 => Rows23(sym);
    case 24 => Rows24(sym); case 25 => Rows25(sym); case 26 => Rows26(sym); case 27 => Rows27(sym);
    case 28 => Rows28(sym); case 29 => Rows29(sym); case 30 => Rows30(sym); case 31 => Rows31(sym);
    case _ => RowsEos();
  }

  /** Ranks of the first `n` symbols. */
  ghost function Ranks(n: nat): set<int>
    requires n <= 257
  {
    set s: nat | s < n :: Rank(s)
  }

  lemma {:induction false} RanksDistinct(n: nat)
    requires n <= 257
    ensures |Ranks(n)| == n
  {
    hide Entry, Rank, RowOk, Ordered;
    if n == 0 {
    } else {
      RanksDistinct(n - 1);
      assert Ranks(n) == Ranks(n - 1) + {Rank(n - 1)};
      forall s: nat | s < n - 1 ensures Rank(s) != Rank(n - 1) {
        RanksDiffer(s, n - 1);
      }
    }
  }

  lemma RanksDiffer(s: nat, t: nat)
    requires s < t <= EOS
    ensures Rank(s) != Rank(t)
  {
    hide Entry, Rank, Ordered;
    TableCanonical(s);
    TableCanonical(t);
  }

  lemma RankInRange(sym: nat)
    requires sym <= EOS
    ensures 0 <= Rank(sym) < 257
  {
    TableCanonical(sym);
    var e := Entry(sym);
    OffsetsBounded(e.len);
  }

  lemma OffsetsBounded(len: nat)
    requires 5 <= len <= 30
    ensures 0 <= Offset(len) <= Offset(len + 1) <= 257
  {
  }

  lemma OffsetsIncrease(a: nat, b: nat)
    requires 5 <= a < b <= 30
    ensures Offset(a + 1) <= Offset(b)
    decreases b - a
  {
    hide Offset;
    OffsetsBounded(a + 1);
    if a + 1 < b {
      OffsetsIncrease(a + 1, b);
    }
  }

  ghost function Numbers(n: nat): (r: set<int>)
    ensures |r| == n
    ensures forall x :: x in r <==> 0 <= x < n
  {
    if n == 0 then {} else Numbers(n - 1) + {n - 1}
  }

  /** Every code value of a length's interval belongs to some symbol: the code space is full. */
  lemma CodeAssigned(bits: nat, len: nat) returns (sym: nat)
    requires 5 <= len <= 30 && FirstCode(len) <= bits < Limit(len)
    ensures sym <= EOS && Entry(sym) == Code(bits, len)
  {
    hide Entry, Rank, FirstCode, Offset;
    var r := Offset(len) + (bits - FirstCode(len));
    OffsetsBounded(len);
    RanksDistinct(257);
    forall s: nat | s <= EOS ensures Rank(s) in Numbers(257) { RankInRange(s); }
    SubsetCard(Ranks(257), Numbers(257));
    assert r in Ranks(257);
    sym :| sym <= EOS && Rank(sym) == r;
    RankUnique(sym, bits, len);
  }

  lemma RankUnique(sym: nat, bits: nat, len: nat)
    requires sym <= EOS && 5 <= len <= 30 && FirstCode(len) <= bits < Limit(len)
    requires Rank(sym) == Offset(len) + (bits - FirstCode(len))
    ensures Entry(sym) == Code(bits, len)
  {
    hide Entry, FirstCode, Offset;
    TableCanonical(sym);
    var e := Entry(sym);
    if e.len < len {
      OffsetsIncrease(e.len, len);
    } else if len < e.len {
      OffsetsIncrease(len, e.len);
    }
  }

  /** No two symbols share a code. */
  lemma CodesDistinct(a: nat, b: nat)
    requires a <= EOS && b <= EOS && Entry(a) == Entry(b)
    ensures a == b
  {
    hide Entry;
    TableCanonical(a);
    TableCanonical(b);
  }

  /** Longer codes lie above every shorter one, read as binary fractions. */
  lemma {:induction false} LongerIsHigher(a: nat, b: nat)
    requires 5 <= a < b <= 30
    ensures FirstCode(b) >= Limit(a) * Pow2(b - a)
    decreases b
  {
    hide FirstCode, Offset;
    LengthSteps(b - 1);
    if a + 1 == b {
      assert Pow2(1) == 2;
    } else {
      LongerIsHigher(a, b - 1);
      assert Pow2(b - a) == 2 * Pow2(b - 1 - a);
    }
  }
}
