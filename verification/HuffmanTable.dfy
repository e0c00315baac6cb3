/** The code table of HuffmanEncoder and HuffmanDecoder (both list the same 257 rows), and the
    finite check that it is prefix-free on every octet but 220. */
module HuffmanTable {
  import opened Bytes
  import opened Huffman

  function Rows0(symbol: nat): Code {
    match symbol
    case 0 => Code(0x1ff8, 13) case 1 => Code(0x7fffd8, 23) case 2 => Code(0xfffffe2, 28) case 3 => Code(0xfffffe3, 28)
    case 4 => Code(0xfffffe4, 28) case 5 => Code(0xfffffe5, 28) case 6 => Code(0xfffffe6, 28) case 7 => Code(0xfffffe7, 28)
    case 8 => Code(0xfffffe8, 28) case 9 => Code(0xffffea, 24) case 10 => Code(0x3ffffffc, 30) case 11 => Code(0xfffffe9, 28)
    case 12 => Code(0xfffffea, 28) case 13 => Code(0x3ffffffd, 30) case 14 => Code(0xfffffeb, 28) case _ => Code(0xfffffec, 28)
  }

  function Rows1(symbol: nat): Code {
    match symbol
    case 16 => Code(0xfffffed, 28) case 17 => Code(0xfffffee, 28) case 18 => Code(0xfffffef, 28) case 19 => Code(0xffffff0, 28)
    case 20 => Code(0xffffff1, 28) case 21 => Code(0xffffff2, 28) case 22 => Code(0x3ffffffe, 30) case 23 => Code(0xffffff3, 28)
    case 24 => Code(0xffffff4, 28) case 25 => Code(0xffffff5, 28) case 26 => Code(0xffffff6, 28) case 27 => Code(0xffffff7, 28)
    case 28 => Code(0xffffff8, 28) case 29 => Code(0xffffff9, 28) case 30 => Code(0xffffffa, 28) case _ => Code(0xffffffb, 28)
  }

  function Rows2(symbol: nat): Code {
    match symbol
    case 32 => Code(0x14, 6) case 33 => Code(0x3f8, 10) case 34 => Code(0x3f9, 10) case 35 => Code(0xffa, 12)
    case 36 => Code(0x1ff9, 13) case 37 => Code(0x15, 6) case 38 => Code(0xf8, 8) case 39 => Code(0x7fa, 11)
    case 40 => Code(0x3fa, 10) case 41 => Code(0x3fb, 10) case 42 => Code(0xf9, 8) case 43 => Code(0x7fb, 11)
    case 44 => Code(0xfa, 8) case 45 => Code(0x16, 6) case 46 => Code(0x17, 6) case _ => Code(0x18, 6)
  }

  function Rows3(symbol: nat): Code {
    match symbol
    case 48 => Code(0x0, 5) case 49 => Code(0x1, 5) case 50 => Code(0x2, 5) case 51 => Code(0x19, 6)
    case 52 => Code(0x1a, 6) case 53 => Code(0x1b, 6) case 54 => Code(0x1c, 6) case 55 => Code(0x1d, 6)
    case 56 => Code(0x1e, 6) case 57 => Code(0x1f, 6) case 58 => Code(0x5c, 7) case 59 => Code(0xfb, 8)
    case 60 => Code(0x7ffc, 15) case 61 => Code(0x20, 6) case 62 => Code(0xffb, 12) case _ => Code(0x3fc, 10)
  }

  function Rows4(symbol: nat): Code {
    match symbol
    case 64 => Code(0x1ffa, 13) case 65 => Code(0x21, 6) case 66 => Code(0x5d, 7) case 67 => Code(0x5e, 7)
    case 68 => Code(0x5f, 7) case 69 => Code(0x60, 7) case 70 => Code(0x61, 7) case 71 => Code(0x62, 7)
    case 72 => Code(0x63, 7) case 73 => Code(0x64, 7) case 74 => Code(0x65, 7) case 75 => Code(0x66, 7)
    case 76 => Code(0x67, 7) case 77 => Code(0x68, 7) case 78 => Code(0x69, 7) case _ => Code(0x6a, 7)
  }

  function Rows5(symbol: nat): Code {
    match symbol
    case 80 => Code(0x6b, 7) case 81 => Code(0x6c, 7) case 82 => Code(0x6d, 7) case 83 => Code(0x6e, 7)
    case 84 => Code(0x6f, 7) case 85 => Code(0x70, 7) case 86 => Code(0x71, 7) case 87 => Code(0x72, 7)
    case 88 => Code(0xfc, 8) case 89 => Code(0x73, 7) case 90 => Code(0xfd, 8) case 91 => Code(0x1ffb, 13)
    case 92 => Code(0x7fff0, 19) case 93 => Code(0x1ffc, 13) case 94 => Code(0x3ffc, 14) case _ => Code(0x22, 6)
  }

  function Rows6(symbol: nat): Code {
    match symbol
    case 96 => Code(0x7ffd, 15) case 97 => Code(0x3, 5) case 98 => Code(0x23, 6) case 99 => Code(0x4, 5)
    case 100 => Code(0x24, 6) case 101 => Code(0x5, 5) case 102 => Code(0x25, 6) case 103 => Code(0x26, 6)
    case 104 => Code(0x27, 6) case 105 => Code(0x6, 5) case 106 => Code(0x74, 7) case 107 => Code(0x75, 7)
    case 108 => Code(0x28, 6) case 109 => Code(0x29, 6) case 110 => Code(0x2a, 6) case _ => Code(0x7, 5)
  }

  function Rows7(symbol: nat): Code {
    match symbol
    case 112 => Code(0x2b, 6) case 113 => Code(0x76, 7) case 114 => Code(0x2c, 6) case 115 => Code(0x8, 5)
    case 116 => Code(0x9, 5) case 117 => Code(0x2d, 6) case 118 => Code(0x77, 7) case 119 => Code(0x78, 7)
    case 120 => Code(0x79, 7) case 121 => Code(0x7a, 7) case 122 => Code(0x7b, 7) case 123 => Code(0x7ffe, 15)
    case 124 => Code(0x7fc, 11) case 125 => Code(0x3ffd, 14) case 126 => Code(0x1ffd, 13) case _ => Code(0xffffffc, 28)
  }

  function Rows8(symbol: nat): Code {
    match symbol
    case 128 => Code(0xfffe6, 20) case 129 => Code(0x3fffd2, 22) case 130 => Code(0xfffe7, 20) case 131 => Code(0xfffe8, 20)
    case 132 => Code(0x3fffd3, 22) case 133 => Code(0x3fffd4, 22) case 134 => Code(0x3fffd5, 22) case 135 => Code(0x7fffd9, 23)
    case 136 => Code(0x3fffd6, 22) case 137 => Code(0x7fffda, 23) case 138 => Code(0x7fffdb, 23) case 139 => Code(0x7fffdc, 23)
    case 140 => Code(0x7fffdd, 23) case 141 => Code(0x7fffde, 23) case 142 => Code(0xffffeb, 24) case _ => Code(0x7fffdf, 23)
  }

  function Rows9(symbol: nat): Code {
    match symbol
    case 144 => Code(0xffffec, 24) case 145 => Code(0xffffed, 24) case 146 => Code(0x3fffd7, 22) case 147 => Code(0x7fffe0, 23)
    case 148 => Code(0xffffee, 24) case 149 => Code(0x7fffe1, 23) case 150 => Code(0x7fffe2, 23) case 151 => Code(0x7fffe3, 23)
    case 152 => Code(0x7fffe4, 23) case 153 => Code(0x1fffdc, 21) case 154 => Code(0x3fffd8, 22) case 155 => Code(0x7fffe5, 23)
    case 156 => Code(0x3fffd9, 22) case 157 => Code(0x7fffe6, 23) case 158 => Code(0x7fffe7, 23) case _ => Code(0xffffef, 24)
  }

  function Rows10(symbol: nat): Code {
    match symbol
    case 160 => Code(0x3fffda, 22) case 161 => Code(0x1fffdd, 21) case 162 => Code(0xfffe9, 20) case 163 => Code(0x3fffdb, 22)
    case 164 => Code(0x3fffdc, 22) case 165 => Code(0x7fffe8, 23) case 166 => Code(0x7fffe9, 23) case 167 => Code(0x1fffde, 21)
    case 168 => Code(0x7fffea, 23) case 169 => Code(0x3fffdd, 22) case 170 => Code(0x3fffde, 22) case 171 => Code(0xfffff0, 24)
    case 172 => Code(0x1fffdf, 21) case 173 => Code(0x3fffdf, 22) case 174 => Code(0x7fffeb, 23) case _ => Code(0x7fffec, 23)
  }

  function Rows11(symbol: nat): Code {
    match symbol
    case 176 => Code(0x1fffe0, 21) case 177 => Code(0x1fffe1, 21) case 178 => Code(0x3fffe0, 22) case 179 => Code(0x1fffe2, 21)
    case 180 => Code(0x7fffed, 23) case 181 => Code(0x3fffe1, 22) case 182 => Code(0x7fffee, 23) case 183 => Code(0x7fffef, 23)
    case 184 => Code(0xfffea, 20) case 185 => Code(0x3fffe2, 22) case 186 => Code(0x3fffe3, 22) case 187 => Code(0x3fffe4, 22)
    case 188 => Code(0x7ffff0, 23) case 189 => Code(0x3fffe5, 22) case 190 => Code(0x3fffe6, 22) case _ => Code(0x7ffff1, 23)
  }

  function Rows12(symbol: nat): Code {
    match symbol
    case 192 => Code(0x3ffffe0, 26) case 193 => Code(0x3ffffe1, 26) case 194 => Code(0xfffeb, 20) case 195 => Code(0x7fff1, 19)
    case 196 => Code(0x3fffe7, 22) case 197 => Code(0x7ffff2, 23) case 198 => Code(0x3fffe8, 22) case 199 => Code(0x1ffffec, 25)
    case 200 => Code(0x3ffffe2, 26) case 201 => Code(0x3ffffe3, 26) case 202 => Code(0x3ffffe4, 26) case 203 => Code(0x7ffffde, 27)
    case 204 => Code(0x7ffffdf, 27) case 205 => Code(0x3ffffe5, 26) case 206 => Code(0xfffff1, 24) case _ => Code(0x1ffffed, 25)
  }

  function Rows13(symbol: nat): Code {
    match symbol
    case 208 => Code(0x7fff2, 19) case 209 => Code(0x1fffe3, 21) case 210 => Code(0x3ffffe6, 26) case 211 => Code(0x7ffffe0, 27)
    case 212 => Code(0x7ffffe1, 27) case 213 => Code(0x3ffffe7, 26) case 214 => Code(0x7ffffe2, 27) case 215 => Code(0xfffff2, 24)
    case 216 => Code(0x1fffe4, 21) case 217 => Code(0x1fffe5, 21) case 218 => Code(0x3ffffe8, 26) case 219 => Code(0x3ffffe9, 26)
    case 220 => Code(0xfffffd, 28) case 221 => Code(0x7ffffe3, 27) case 222 => Code(0x7ffffe4, 27) case _ => Code(0x7ffffe5, 27)
  }

  function Rows14(symbol: nat): Code {
    match symbol
    case 224 => Code(0xfffec, 20) case 225 => Code(0xfffff3, 24) case 226 => Code(0xfffed, 20) case 227 => Code(0x1fffe6, 21)
    case 228 => Code(0x3fffe9, 22) case 229 => Code(0x1fffe7, 21) case 230 => Code(0x1fffe8, 21) case 231 => Code(0x7ffff3, 23)
    case 232 => Code(0x3fffea, 22) case 233 => Code(0x3fffeb, 22) case 234 => Code(0x1ffffee, 25) case 235 => Code(0x1ffffef, 25)
    case 236 => Code(0xfffff4, 24) case 237 => Code(0xfffff5, 24) case 238 => Code(0x3ffffea, 26) case _ => Code(0x7ffff4, 23)
  }

  function Rows15(symbol: nat): Code {
    match symbol
    case 240 => Code(0x3ffffeb, 26) case 241 => Code(0x7ffffe6, 27) case 242 => Code(0x3ffffec, 26) case 243 => Code(0x3ffffed, 26)
    case 244 => Code(0x7ffffe7, 27) case 245 => Code(0x7ffffe8, 27) case 246 => Code(0x7ffffe9, 27) case 247 => Code(0x7ffffea, 27)
    case 248 => Code(0x7ffffeb, 27) case 249 => Code(0xffffffe, 28) case 250 => Code(0x7ffffec, 27) case 251 => Code(0x7ffffed, 27)
    case 252 => Code(0x7ffffee, 27) case 253 => Code(0x7ffffef, 27) case 254 => Code(0x7fffff0, 27) case _ => Code(0x3ffffee, 26)
  }

  /** Row `symbol`; rows 0 to 255 are octets and row 256 is end-of-string. */
  function Row(symbol: nat): Code
    requires symbol <= EOS
  {
    if symbol < 16 then Rows0(symbol)
    else if symbol < 32 then Rows1(symbol)
    else if symbol < 48 then Rows2(symbol)
    else if symbol < 64 then Rows3(symbol)
    else if symbol < 80 then Rows4(symbol)
    else if symbol < 96 then Rows5(symbol)
    else if symbol < 112 then Rows6(symbol)
    else if symbol < 128 then Rows7(symbol)
    else if symbol < 144 then Rows8(symbol)
    else if symbol < 160 then Rows9(symbol)
    else if symbol < 176 then Rows10(symbol)
    else if symbol < 192 then Rows11(symbol)
    else if symbol < 208 then Rows12(symbol)
    else if symbol < 224 then Rows13(symbol)
    else if symbol < 240 then Rows14(symbol)
    else if symbol < 256 then Rows15(symbol)
    else Code(0x3fffffff, 30)
  }

  function Table(): (r: seq<Code>)
    ensures |r| == EOS + 1
    ensures forall s :: 0 <= s <= EOS ==> r[s] == Row(s)
  {
    seq(EOS + 1, s requires 0 <= s <= EOS => Row(s))
  }

  // ---- canonical order: words of one width are consecutive numbers ----

  /** The first word of each width in Appendix B of RFC 7541, and how many there are. */
  function First(width: nat): nat {
    match width
    case 5 => 0x0 case 6 => 0x14 case 7 => 0x5c case 8 => 0xf8
    case 9 => 0x1fc case 10 => 0x3f8 case 11 => 0x7fa case 12 => 0xffa
    case 13 => 0x1ff8 case 14 => 0x3ffc case 15 => 0x7ffc case 16 => 0xfffe
    case 17 => 0x1fffc case 18 => 0x3fff8 case 19 => 0x7fff0 case 20 => 0xfffe6
    case 21 => 0x1fffdc case 22 => 0x3fffd2 case 23 => 0x7fffd8 case 24 => 0xffffea
    case 25 => 0x1ffffec case 26 => 0x3ffffe0 case 27 => 0x7ffffde case 28 => 0xfffffe2
    case 29 => 0x1ffffffe case 30 => 0x3ffffffc
    case _ => 0
  }

  function Count(width: nat): nat {
    match width
    case 5 => 10 case 6 => 26 case 7 => 32 case 8 => 6 case 10 => 5 case 11 => 3 case 12 => 2
    case 13 => 6 case 14 => 2 case 15 => 3 case 19 => 3 case 20 => 8 case 21 => 13 case 22 => 26
    case 23 => 29 case 24 => 12 case 25 => 4 case 26 => 15 case 27 => 19 case 28 => 29 case 30 => 4
    case _ => 0
  }

  /** The symbol of the `index`-th word of a width. */
  function Symbol(width: nat, index: nat): nat {
    match width
    case 5 => Symbol5(index)
    case 6 => Symbol6(index)
    case 7 => Symbol7(index)
    case 8 => Symbol8(index)
    case 10 => Symbol10(index)
    case 11 => Symbol11(index)
    case 12 => Symbol12(index)
    case 13 => Symbol13(index)
    case 14 => Symbol14(index)
    case 15 => Symbol15(index)
    case 19 => Symbol19(index)
    case 20 => Symbol20(index)
    case 21 => Symbol21(index)
    case 22 => Symbol22(index)
    case 23 => Symbol23(index)
    case 24 => Symbol24(index)
    case 25 => Symbol25(index)
    case 26 => Symbol26(index)
    case 27 => Symbol27(index)
    case 28 => Symbol28(index)
    case 30 => Symbol30(index)
    case _ => 0
  }

  function Symbol5(index: nat): nat {
    match index
    case 0 => 48 case 1 => 49 case 2 => 50 case 3 => 97 case 4 => 99 case 5 => 101 case 6 => 105 case 7 => 111
    case 8 => 115 case _ => 116
  }

  function Symbol6(index: nat): nat {
    match index
    case 0 => 32 case 1 => 37 case 2 => 45 case 3 => 46 case 4 => 47 case 5 => 51 case 6 => 52 case 7 => 53
    case 8 => 54 case 9 => 55 case 10 => 56 case 11 => 57 case 12 => 61 case 13 => 65 case 14 => 95 case 15 => 98
    case 16 => 100 case 17 => 102 case 18 => 103 case 19 => 104 case 20 => 108 case 21 => 109 case 22 => 110 case 23 => 112
    case 24 => 114 case _ => 117
  }

  function Symbol7(index: nat): nat {
    match index
    case 0 => 58 case 1 => 66 case 2 => 67 case 3 => 68 case 4 => 69 case 5 => 70 case 6 => 71 case 7 => 72
    case 8 => 73 case 9 => 74 case 10 => 75 case 11 => 76 case 12 => 77 case 13 => 78 case 14 => 79 case 15 => 80
    case 16 => 81 case 17 => 82 case 18 => 83 case 19 => 84 case 20 => 85 case 21 => 86 case 22 => 87 case 23 => 89
    case 24 => 106 case 25 => 107 case 26 => 113 case 27 => 118 case 28 => 119 case 29 => 120 case 30 => 121 case _ => 122
  }

  function Symbol8(index: nat): nat {
    match index
    case 0 => 38 case 1 => 42 case 2 => 44 case 3 => 59 case 4 => 88 case _ => 90
  }

  function Symbol10(index: nat): nat {
    match index
    case 0 => 33 case 1 => 34 case 2 => 40 case 3 => 41 case _ => 63
  }

  function Symbol11(index: nat): nat {
    match index
    case 0 => 39 case 1 => 43 case _ => 124
  }

  function Symbol12(index: nat): nat {
    match index
    case 0 => 35 case _ => 62
  }

  function Symbol13(index: nat): nat {
    match index
    case 0 => 0 case 1 => 36 case 2 => 64 case 3 => 91 case 4 => 93 case _ => 126
  }

  function Symbol14(index: nat): nat {
    match index
    case 0 => 94 case _ => 125
  }

  function Symbol15(index: nat): nat {
    match index
    case 0 => 60 case 1 => 96 case _ => 123
  }

  function Symbol19(index: nat): nat {
    match index
    case 0 => 92 case 1 => 195 case _ => 208
  }

  function Symbol20(index: nat): nat {
    match index
    case 0 => 128 case 1 => 130 case 2 => 131 case 3 => 162 case 4 => 184 case 5 => 194 case 6 => 224 case _ => 226
  }

  function Symbol21(index: nat): nat {
    match index
    case 0 => 153 case 1 => 161 case 2 => 167 case 3 => 172 case 4 => 176 case 5 => 177 case 6 => 179 case 7 => 209
    case 8 => 216 case 9 => 217 case 10 => 227 case 11 => 229 case _ => 230
  }

  function Symbol22(index: nat): nat {
    match index
    case 0 => 129 case 1 => 132 case 2 => 133 case 3 => 134 case 4 => 136 case 5 => 146 case 6 => 154 case 7 => 156
    case 8 => 160 case 9 => 163 case 10 => 164 case 11 => 169 case 12 => 170 case 13 => 173 case 14 => 178 case 15 => 181
    case 16 => 185 case 17 => 186 case 18 => 187 case 19 => 189 case 20 => 190 case 21 => 196 case 22 => 198 case 23 => 228
    case 24 => 232 case _ => 233
  }

  function Symbol23(index: nat): nat {
    match index
    case 0 => 1 case 1 => 135 case 2 => 137 case 3 => 138 case 4 => 139 case 5 => 140 case 6 => 141 case 7 => 143
    case 8 => 147 case 9 => 149 case 10 => 150 case 11 => 151 case 12 => 152 case 13 => 155 case 14 => 157 case 15 => 158
    case 16 => 165 case 17 => 166 case 18 => 168 case 19 => 174 case 20 => 175 case 21 => 180 case 22 => 182 case 23 => 183
    case 24 => 188 case 25 => 191 case 26 => 197 case 27 => 231 case _ => 239
  }

  function Symbol24(index: nat): nat {
    match index
    case 0 => 9 case 1 => 142 case 2 => 144 case 3 => 145 case 4 => 148 case 5 => 159 case 6 => 171 case 7 => 206
    case 8 => 215 case 9 => 225 case 10 => 236 case _ => 237
  }

  function Symbol25(index: nat): nat {
    match index
    case 0 => 199 case 1 => 207 case 2 => 234 case _ => 235
  }

  function Symbol26(index: nat): nat {
    match index
    case 0 => 192 case 1 => 193 case 2 => 200 case 3 => 201 case 4 => 202 case 5 => 205 case 6 => 210 case 7 => 213
    case 8 => 218 case 9 => 219 case 10 => 238 case 11 => 240 case 12 => 242 case 13 => 243 case _ => 255
  }

  function Symbol27(index: nat): nat {
    match index
    case 0 => 203 case 1 => 204 case 2 => 211 case 3 => 212 case 4 => 214 case 5 => 221 case 6 => 222 case 7 => 223
    case 8 => 241 case 9 => 244 case 10 => 245 case 11 => 246 case 12 => 247 case 13 => 248 case 14 => 250 case 15 => 251
    case 16 => 252 case 17 => 253 case _ => 254
  }

  function Symbol28(index: nat): nat {
    match index
    case 0 => 2 case 1 => 3 case 2 => 4 case 3 => 5 case 4 => 6 case 5 => 7 case 6 => 8 case 7 => 11
    case 8 => 12 case 9 => 14 case 10 => 15 case 11 => 16 case 12 => 17 case 13 => 18 case 14 => 19 case 15 => 20
    case 16 => 21 case 17 => 23 case 18 => 24 case 19 => 25 case 20 => 26 case 21 => 27 case 22 => 28 case 23 => 29
    case 24 => 30 case 25 => 31 case 26 => 127 case 27 => 220 case _ => 249
  }

  function Symbol30(index: nat): nat {
    match index
    case 0 => 10 case 1 => 13 case 2 => 22 case _ => 256
  }

  /** Row `x` is where the canonical order puts it. */
  predicate Listed(x: nat)
    requires x <= EOS
  {
    ListedAs(Row(x), x)
  }

  predicate ListedAs(r: Code, x: nat) {
    && 5 <= r.bits <= 30
    && First(r.bits) <= r.code < First(r.bits) + Count(r.bits)
    && Symbol(r.bits, r.code - First(r.bits)) == x
  }

  lemma Listed0(x: nat)
    requires 0 <= x < 16
    ensures Listed(x)
  {
  }

  lemma Listed1(x: nat)
    requires 16 <= x < 32
    ensures Listed(x)
  {
  }

  lemma Listed2(x: nat)
    requires 32 <= x < 48
    ensures Listed(x)
  {
  }

  lemma Listed3(x: nat)
    requires 48 <= x < 64
    ensures Listed(x)
  {
  }

  lemma Listed4(x: nat)
    requires 64 <= x < 80
    ensures Listed(x)
  {
  }

  lemma Listed5(x: nat)
    requires 80 <= x < 96
    ensures Listed(x)
  {
  }

  lemma Listed6(x: nat)
    requires 96 <= x < 112
    ensures Listed(x)
  {
  }

  lemma Listed7(x: nat)
    requires 112 <= x < 128
    ensures Listed(x)
  {
  }

  lemma Listed8(x: nat)
    requires 128 <= x < 144
    ensures Listed(x)
  {
  }

  lemma Listed9(x: nat)
    requires 144 <= x < 160
    ensures Listed(x)
  {
  }

  lemma Listed10(x: nat)
    requires 160 <= x < 176
    ensures Listed(x)
  {
  }

  lemma Listed11(x: nat)
    requires 176 <= x < 192
    ensures Listed(x)
  {
  }

  lemma Listed12(x: nat)
    requires 192 <= x < 208
    ensures Listed(x)
  {
  }

  lemma Listed13(x: nat)
    requires 208 <= x < 224 && x != 220
    ensures Listed(x)
  {
  }

  lemma Listed14(x: nat)
    requires 224 <= x < 240
    ensures Listed(x)
  {
  }

  lemma Listed15(x: nat)
    requires 240 <= x < 256
    ensures Listed(x)
  {
  }

  lemma AllListed(x: nat)
    requires x <= EOS && x != 220
    ensures Listed(x)
  {
    if x < 16 { Listed0(x);
    } else if x < 32 { Listed1(x);
    } else if x < 48 { Listed2(x);
    } else if x < 64 { Listed3(x);
    } else if x < 80 { Listed4(x);
    } else if x < 96 { Listed5(x);
    } else if x < 112 { Listed6(x);
    } else if x < 128 { Listed7(x);
    } else if x < 144 { Listed8(x);
    } else if x < 160 { Listed9(x);
    } else if x < 176 { Listed10(x);
    } else if x < 192 { Listed11(x);
    } else if x < 208 { Listed12(x);
    } else if x < 224 { Listed13(x);
    } else if x < 240 { Listed14(x);
    } else if x < 256 { Listed15(x);
    } else {
      assert Listed(EOS);
    }
  }

  lemma FirstDoubles(width: nat)
    requires 5 <= width < 30
    ensures First(width + 1) == 2 * (First(width) + Count(width))
  {
  }

  /** Words of one width lie below every longer word that could extend them. */
  lemma {:induction false} WidthsApart(low: nat, high: nat)
    requires 5 <= low < high <= 30
    ensures (First(low) + Count(low)) * Pow2(high - low) <= First(high)
    decreases high - low
  {
    FirstDoubles(low);
    if low + 1 < high {
      WidthsApart(low + 1, high);
      assert Pow2(high - low) == 2 * Pow2(high - low - 1);
      Scale(First(low) + Count(low), First(low + 1) + Count(low + 1), Pow2(high - low - 1));
    } else {
      assert Pow2(1) == 2;
    }
  }

  lemma Scale(a: nat, b: nat, k: nat)
    requires 2 * a <= b
    ensures a * (2 * k) <= b * k
  {
    assert a * (2 * k) == (2 * a) * k;
  }

  lemma Doubled(q: nat, p: nat, x: nat)
    requires q * p <= x / 2 < (q + 1) * p
    ensures q * (2 * p) <= x < (q + 1) * (2 * p)
  {
    var m := q * p;
    assert (q + 1) * p == m + p;
    assert q * (2 * p) == 2 * m;
    assert (q + 1) * (2 * p) == 2 * m + 2 * p;
  }

  lemma {:induction false} ShrBounds(x: nat, n: nat)
    ensures Shr(x, n) * Pow2(n) <= x < (Shr(x, n) + 1) * Pow2(n)
  {
    if n > 0 {
      ShrBounds(x / 2, n - 1);
      Doubled(Shr(x, n), Pow2(n - 1), x);
    } else {
      assert Pow2(0) == 1;
    }
  }

  /** A shorter word is a prefix exactly when it is what the longer word keeps after a shift. */
  lemma PrefixIsShift(a: Code, b: Code)
    requires a.bits <= b.bits && a.code < Pow2(a.bits) && Shr(b.code, b.bits - a.bits) < Pow2(a.bits)
    ensures Bits(a.code, a.bits) <= Bits(b.code, b.bits) <==> a.code == Shr(b.code, b.bits - a.bits)
  {
    var kept := Shr(b.code, b.bits - a.bits);
    BitsSplit(b.code, a.bits, b.bits - a.bits);
    assert Bits(b.code, b.bits)[..a.bits] == Bits(kept, a.bits);
    assert Bits(a.code, a.bits) <= Bits(b.code, b.bits) <==> Bits(a.code, a.bits) == Bits(kept, a.bits);
    NumberOfBits(a.code, a.bits);
    NumberOfBits(kept, a.bits);
  }

  lemma {:induction false} FirstFits(width: nat)
    requires 5 <= width <= 30
    ensures First(width) + Count(width) <= Pow2(width)
    decreases 30 - width
  {
    if width == 30 {
      assert Pow2(5) == 32;
      Pow2Add(5, 5);
      Pow2Add(10, 10);
      Pow2Add(20, 10);
    } else {
      FirstFits(width + 1);
      FirstDoubles(width);
    }
  }

  /** Every row fits its width, the misprinted one included. */
  lemma RowFits(x: nat)
    requires x <= EOS
    ensures 5 <= Row(x).bits <= 30 && Row(x).code < Pow2(Row(x).bits)
  {
    if x == 220 {
      FirstFits(28);
      assert Row(220) == Code(0xfffffd, 28);
    } else {
      AllListed(x);
      FirstFits(Row(x).bits);
    }
  }

  lemma TableFits()
    ensures Fits(Table())
  {
    forall s | 0 <= s < |Table()|
      ensures Table()[s].bits <= 56 && Table()[s].code < Pow2(Table()[s].bits)
    {
      RowFits(s);
    }
  }

  /** The numeric core: two listed words of which one extends the other are the same word. */
  lemma NoExtension(a: Code, y: nat, b: Code, x: nat)
    requires ListedAs(a, y) && ListedAs(b, x)
    requires a.bits <= b.bits && Shr(b.code, b.bits - a.bits) == a.code
    ensures x == y
  {
    hide First, Count, Symbol;
    if a.bits < b.bits {
      ShorterIsBelow(a.code, a.bits, b.code, b.bits);
    }
  }

  lemma ShorterIsBelow(a: nat, low: nat, b: nat, high: nat)
    requires 5 <= low < high <= 30 && a < First(low) + Count(low) && First(high) <= b
    ensures Shr(b, high - low) != a
  {
    WidthsApart(low, high);
    ShrBounds(b, high - low);
    Monotone(a + 1, First(low) + Count(low), Pow2(high - low));
  }

  lemma Monotone(a: nat, b: nat, k: nat)
    requires a <= b
    ensures a * k <= b * k
  {
  }

  /** The misprinted word 220 extends no listed word's position, so it hides no other octet. */
  lemma MisprintHidesNothing(x: nat)
    requires x <= EOS && Listed(x) && 28 <= Row(x).bits
    ensures Shr(Row(x).code, Row(x).bits - 28) != Row(220).code
  {
    assert Row(220) == Code(0xfffffd, 28);
    var d := Row(x).bits - 28;
    assert Row(x).code >= 0xfffffe2 && d <= 2;
    assert Pow2(0) == 1 && Pow2(1) == 2 && Pow2(2) == 4;
    ShrBounds(Row(x).code, d);
    if d == 2 {
      assert Row(x).code >= First(30);
    }
  }

  lemma ListedIsClear(x: nat)
    requires x <= EOS && x != 220
    ensures Clear(Table(), x)
  {
    AllListed(x);
    forall y | 0 <= y <= EOS && y != x
      ensures !(Word(Table(), y) <= Word(Table(), x))
    {
      NotPrefix(y, x);
    }
  }

  lemma NotMisprint(x: nat)
    requires x <= EOS && Listed(x)
    ensures !(Bits(Row(220).code, Row(220).bits) <= Bits(Row(x).code, Row(x).bits))
  {
    hide Row, ListedAs, Bits;
    RowFits(x);
    RowFits(220);
    assert Row(220).bits == 28 by { MisprintWidth(); }
    if 28 <= Row(x).bits {
      MisprintHidesNothing(x);
    }
    NotShifted(Row(220), Row(x));
  }

  lemma MisprintWidth()
    ensures Row(220).bits == 28
  {
  }

  lemma NotPrefix(y: nat, x: nat)
    requires x <= EOS && y <= EOS && y != x && x != 220 && Listed(x)
    ensures !(Bits(Row(y).code, Row(y).bits) <= Bits(Row(x).code, Row(x).bits))
  {
    hide Row, ListedAs, Bits;
    RowFits(x);
    RowFits(y);
    if y == 220 {
      NotMisprint(x);
    } else {
      AllListed(y);
      NotShiftedListed(Row(y), y, Row(x), x);
    }
  }

  lemma NotShifted(a: Code, b: Code)
    requires a.code < Pow2(a.bits) && b.code < Pow2(b.bits)
    requires a.bits <= b.bits ==> Shr(b.code, b.bits - a.bits) != a.code
    ensures !(Bits(a.code, a.bits) <= Bits(b.code, b.bits))
  {
    if a.bits <= b.bits {
      ShrFits(b.code, a.bits, b.bits - a.bits);
      PrefixIsShift(a, b);
    }
  }

  lemma NotShiftedListed(a: Code, y: nat, b: Code, x: nat)
    requires x != y && ListedAs(a, y) && ListedAs(b, x)
    requires a.code < Pow2(a.bits) && b.code < Pow2(b.bits)
    ensures !(Bits(a.code, a.bits) <= Bits(b.code, b.bits))
  {
    if a.bits <= b.bits && Shr(b.code, b.bits - a.bits) == a.code {
      NoExtension(a, y, b, x);
    }
    NotShifted(a, b);
  }

  lemma ShrFits(x: nat, keep: nat, drop: nat)
    requires x < Pow2(keep + drop)
    ensures Shr(x, drop) < Pow2(keep)
  {
    ShrBounds(x, drop);
    Pow2Add(keep, drop);
    if Shr(x, drop) >= Pow2(keep) {
      Monotone(Pow2(keep), Shr(x, drop), Pow2(drop));
    }
  }

  /** The word listed for 220 begins with the word of the character '1', which is read instead. */
  lemma MisprintIsMisread()
    ensures Misread(Table(), 220) && !Clear(Table(), 220)
  {
    ListedIsClear(49);
    MisprintExtends();
    assert Word(Table(), 49) == Bits(1, 5) && Word(Table(), 220) == Bits(0xfffffd, 28);
  }

  lemma MisprintExtends()
    ensures Bits(1, 5) <= Bits(0xfffffd, 28)
  {
    assert Pow2(5) == 32 && Pow2(3) == 8;
    Pow2Add(5, 5);
    Pow2Add(10, 10);
    Pow2Add(20, 3);
    ShrBounds(0xfffffd, 23);
    assert Shr(0xfffffd, 23) == 1;
    PrefixIsShift(Code(1, 5), Code(0xfffffd, 28));
  }

  lemma TablePadSafe()
    ensures PadSafe(Table())
  {
    forall n | 1 <= n <= 7
      ensures Known(Table(), |Table()|, Ones(n)) && Owner(Table(), |Table()|, Ones(n)) == -1
    {
      OnesKnown(n);
      var s := Owner(Table(), |Table()|, Ones(n));
      if s >= 0 {
        OnesNotAWord(s, n);
      }
    }
  }

  lemma EndIsOnes()
    ensures |Table()| > EOS && Word(Table(), EOS) == Ones(30)
  {
    hide Bits;
    assert Row(EOS) == Code(0x3fffffff, 30);
    assert Pow2(5) == 32;
    Pow2Add(5, 5);
    Pow2Add(10, 10);
    Pow2Add(20, 10);
    BitsOfOnes(30);
  }

  lemma OnesKnown(n: nat)
    requires 1 <= n <= 7
    ensures Known(Table(), |Table()|, Ones(n))
  {
    hide Row, Word;
    EndIsOnes();
    assert Ones(n) <= Word(Table(), EOS);
  }

  lemma OnesNotAWord(s: nat, n: nat)
    requires s <= EOS && 1 <= n <= 7
    ensures Bits(Row(s).code, Row(s).bits) != Ones(n)
  {
    if Row(s).bits == n {
      assert s != 220;
      AllListed(s);
      RowFits(s);
      BitsOfOnes(n);
      NumberOfBits(Row(s).code, n);
      NumberOfBits(Pow2(n) - 1, n);
      assert Pow2(5) == 32 && Pow2(6) == 64 && Pow2(7) == 128;
    }
  }

  /** Text survives Huffman encoding and decoding with the listed table exactly when it does not
      contain octet 220. */
  lemma TextSurvivesIff(s: seq<Byte>)
    ensures Decode(Table(), Encode(Table(), s)) == Some(s) <==> 220 !in s
  {
    TablePadSafe();
    MisprintIsMisread();
    forall x | 0 <= x < 256 ensures x != 220 ==> Clear(Table(), x) {
      if x != 220 {
        ListedIsClear(x);
      }
    }
    RoundTripIff(Table(), s);
  }

}
