/** The Huffman code of Appendix B of RFC 7541 (src/transport/huffman.rs), and the proof that it is a
    complete canonical code. */
module HpackCode {
  import opened Common
  import opened Huffman
  import opened HuffmanTables
  import opened HuffmanCodec

  const SYMBOL_COUNT: nat := 257
  const LONGEST: nat := 30

  // ----- codes and lengths, sixteen symbols to a row -----

  function EntryAt0(i: nat): Entry {
    match i
    case 0 => Entry(0x1ff8, 13) case 1 => Entry(0x7fffd8, 23) case 2 => Entry(0xfffffe2, 28)
    case 3 => Entry(0xfffffe3, 28) case 4 => Entry(0xfffffe4, 28) case 5 => Entry(0xfffffe5, 28)
    case 6 => Entry(0xfffffe6, 28) case 7 => Entry(0xfffffe7, 28) case 8 => Entry(0xfffffe8, 28)
    case 9 => Entry(0xffffea, 24) case 10 => Entry(0x3ffffffc, 30) case 11 => Entry(0xfffffe9, 28)
    case 12 => Entry(0xfffffea, 28) case 13 => Entry(0x3ffffffd, 30) case 14 => Entry(0xfffffeb, 28)
    case _ => Entry(0xfffffec, 28)
  }

  function EntryAt1(i: nat): Entry {
    match i
    case 16 => Entry(0xfffffed, 28) case 17 => Entry(0xfffffee, 28) case 18 => Entry(0xfffffef, 28)
    case 19 => Entry(0xffffff0, 28) case 20 => Entry(0xffffff1, 28) case 21 => Entry(0xffffff2, 28)
    case 22 => Entry(0x3ffffffe, 30) case 23 => Entry(0xffffff3, 28) case 24 => Entry(0xffffff4, 28)
    case 25 => Entry(0xffffff5, 28) case 26 => Entry(0xffffff6, 28) case 27 => Entry(0xffffff7, 28)
    case 28 => Entry(0xffffff8, 28) case 29 => Entry(0xffffff9, 28) case 30 => Entry(0xffffffa, 28)
    case _ => Entry(0xffffffb, 28)
  }

  function EntryAt2(i: nat): Entry {
    match i
    case 32 => Entry(0x14, 6) case 33 => Entry(0x3f8, 10) case 34 => Entry(0x3f9, 10)
    case 35 => Entry(0xffa, 12) case 36 => Entry(0x1ff9, 13) case 37 => Entry(0x15, 6)
    case 38 => Entry(0xf8, 8) case 39 => Entry(0x7fa, 11) case 40 => Entry(0x3fa, 10)
    case 41 => Entry(0x3fb, 10) case 42 => Entry(0xf9, 8) case 43 => Entry(0x7fb, 11)
    case 44 => Entry(0xfa, 8) case 45 => Entry(0x16, 6) case 46 => Entry(0x17, 6)
    case _ => Entry(0x18, 6)
  }

  function EntryAt3(i: nat): Entry {
    match i
    case 48 => Entry(0x0, 5) case 49 => Entry(0x1, 5) case 50 => Entry(0x2, 5)
    case 51 => Entry(0x19, 6) case 52 => Entry(0x1a, 6) case 53 => Entry(0x1b, 6)
    case 54 => Entry(0x1c, 6) case 55 => Entry(0x1d, 6) case 56 => Entry(0x1e, 6)
    case 57 => Entry(0x1f, 6) case 58 => Entry(0x5c, 7) case 59 => Entry(0xfb, 8)
    case 60 => Entry(0x7ffc, 15) case 61 => Entry(0x20, 6) case 62 => Entry(0xffb, 12)
    case _ => Entry(0x3fc, 10)
  }

  function EntryAt4(i: nat): Entry {
    match i
    case 64 => Entry(0x1ffa, 13) case 65 => Entry(0x21, 6) case 66 => Entry(0x5d, 7)
    case 67 => Entry(0x5e, 7) case 68 => Entry(0x5f, 7) case 69 => Entry(0x60, 7)
    case 70 => Entry(0x61, 7) case 71 => Entry(0x62, 7) case 72 => Entry(0x63, 7)
    case 73 => Entry(0x64, 7) case 74 => Entry(0x65, 7) case 75 => Entry(0x66, 7)
    case 76 => Entry(0x67, 7) case 77 => Entry(0x68, 7) case 78 => Entry(0x69, 7)
    case _ => Entry(0x6a, 7)
  }

  function EntryAt5(i: nat): Entry {
    match i
    case 80 => Entry(0x6b, 7) case 81 => Entry(0x6c, 7) case 82 => Entry(0x6d, 7)
    case 83 => Entry(0x6e, 7) case 84 => Entry(0x6f, 7) case 85 => Entry(0x70, 7)
    case 86 => Entry(0x71, 7) case 87 => Entry(0x72, 7) case 88 => Entry(0xfc, 8)
    case 89 => Entry(0x73, 7) case 90 => Entry(0xfd, 8) case 91 => Entry(0x1ffb, 13)
    case 92 => Entry(0x7fff0, 19) case 93 => Entry(0x1ffc, 13) case 94 => Entry(0x3ffc, 14)
    case _ => Entry(0x22, 6)
  }

  function EntryAt6(i: nat): Entry {
    match i
    case 96 => Entry(0x7ffd, 15) case 97 => Entry(0x3, 5) case 98 => Entry(0x23, 6)
    case 99 => Entry(0x4, 5) case 100 => Entry(0x24, 6) case 101 => Entry(0x5, 5)
    case 102 => Entry(0x25, 6) case 103 => Entry(0x26, 6) case 104 => Entry(0x27, 6)
    case 105 => Entry(0x6, 5) case 106 => Entry(0x74, 7) case 107 => Entry(0x75, 7)
    case 108 => Entry(0x28, 6) case 109 => Entry(0x29, 6) case 110 => Entry(0x2a, 6)
    case _ => Entry(0x7, 5)
  }

  function EntryAt7(i: nat): Entry {
    match i
    case 112 => Entry(0x2b, 6) case 113 => Entry(0x76, 7) case 114 => Entry(0x2c, 6)
    case 115 => Entry(0x8, 5) case 116 => Entry(0x9, 5) case 117 => Entry(0x2d, 6)
    case 118 => Entry(0x77, 7) case 119 => Entry(0x78, 7) case 120 => Entry(0x79, 7)
    case 121 => Entry(0x7a, 7) case 122 => Entry(0x7b, 7) case 123 => Entry(0x7ffe, 15)
    case 124 => Entry(0x7fc, 11) case 125 => Entry(0x3ffd, 14) case 126 => Entry(0x1ffd, 13)
    case _ => Entry(0xffffffc, 28)
  }

  function EntryAt8(i: nat): Entry {
    match i
    case 128 => Entry(0xfffe6, 20) case 129 => Entry(0x3fffd2, 22) case 130 => Entry(0xfffe7, 20)
    case 131 => Entry(0xfffe8, 20) case 132 => Entry(0x3fffd3, 22) case 133 => Entry(0x3fffd4, 22)
    case 134 => Entry(0x3fffd5, 22) case 135 => Entry(0x7fffd9, 23) case 136 => Entry(0x3fffd6, 22)
    case 137 => Entry(0x7fffda, 23) case 138 => Entry(0x7fffdb, 23) case 139 => Entry(0x7fffdc, 23)
    case 140 => Entry(0x7fffdd, 23) case 141 => Entry(0x7fffde, 23) case 142 => Entry(0xffffeb, 24)
    case _ => Entry(0x7fffdf, 23)
  }

  function EntryAt9(i: nat): Entry {
    match i
    case 144 => Entry(0xffffec, 24) case 145 => Entry(0xffffed, 24) case 146 => Entry(0x3fffd7, 22)
    case 147 => Entry(0x7fffe0, 23) case 148 => Entry(0xffffee, 24) case 149 => Entry(0x7fffe1, 23)
    case 150 => Entry(0x7fffe2, 23) case 151 => Entry(0x7fffe3, 23) case 152 => Entry(0x7fffe4, 23)
    case 153 => Entry(0x1fffdc, 21) case 154 => Entry(0x3fffd8, 22) case 155 => Entry(0x7fffe5, 23)
    case 156 => Entry(0x3fffd9, 22) case 157 => Entry(0x7fffe6, 23) case 158 => Entry(0x7fffe7, 23)
    case _ => Entry(0xffffef, 24)
  }

  function EntryAt10(i: nat): Entry {
    match i
    case 160 => Entry(0x3fffda, 22) case 161 => Entry(0x1fffdd, 21) case 162 => Entry(0xfffe9, 20)
    case 163 => Entry(0x3fffdb, 22) case 164 => Entry(0x3fffdc, 22) case 165 => Entry(0x7fffe8, 23)
    case 166 => Entry(0x7fffe9, 23) case 167 => Entry(0x1fffde, 21) case 168 => Entry(0x7fffea, 23)
    case 169 => Entry(0x3fffdd, 22) case 170 => Entry(0x3fffde, 22) case 171 => Entry(0xfffff0, 24)
    case 172 => Entry(0x1fffdf, 21) case 173 => Entry(0x3fffdf, 22) case 174 => Entry(0x7fffeb, 23)
    case _ => Entry(0x7fffec, 23)
  }

  function EntryAt11(i: nat): Entry {
    match i
    case 176 => Entry(0x1fffe0, 21) case 177 => Entry(0x1fffe1, 21) case 178 => Entry(0x3fffe0, 22)
    case 179 => Entry(0x1fffe2, 21) case 180 => Entry(0x7fffed, 23) case 181 => Entry(0x3fffe1, 22)
    case 182 => Entry(0x7fffee, 23) case 183 => Entry(0x7fffef, 23) case 184 => Entry(0xfffea, 20)
    case 185 => Entry(0x3fffe2, 22) case 186 => Entry(0x3fffe3, 22) case 187 => Entry(0x3fffe4, 22)
    case 188 => Entry(0x7ffff0, 23) case 189 => Entry(0x3fffe5, 22) case 190 => Entry(0x3fffe6, 22)
    case _ => Entry(0x7ffff1, 23)
  }

  function EntryAt12(i: nat): Entry {
    match i
    case 192 => Entry(0x3ffffe0, 26) case 193 => Entry(0x3ffffe1, 26) case 194 => Entry(0xfffeb, 20)
    case 195 => Entry(0x7fff1, 19) case 196 => Entry(0x3fffe7, 22) case 197 => Entry(0x7ffff2, 23)
    case 198 => Entry(0x3fffe8, 22) case 199 => Entry(0x1ffffec, 25) case 200 => Entry(0x3ffffe2, 26)
    case 201 => Entry(0x3ffffe3, 26) case 202 => Entry(0x3ffffe4, 26) case 203 => Entry(0x7ffffde, 27)
    case 204 => Entry(0x7ffffdf, 27) case 205 => Entry(0x3ffffe5, 26) case 206 => Entry(0xfffff1, 24)
    case _ => Entry(0x1ffffed, 25)
  }

  function EntryAt13(i: nat): Entry {
    match i
    case 208 => Entry(0x7fff2, 19) case 209 => Entry(0x1fffe3, 21) case 210 => Entry(0x3ffffe6, 26)
    case 211 => Entry(0x7ffffe0, 27) case 212 => Entry(0x7ffffe1, 27) case 213 => Entry(0x3ffffe7, 26)
    case 214 => Entry(0x7ffffe2, 27) case 215 => Entry(0xfffff2, 24) case 216 => Entry(0x1fffe4, 21)
    case 217 => Entry(0x1fffe5, 21) case 218 => Entry(0x3ffffe8, 26) case 219 => Entry(0x3ffffe9, 26)
    case 220 => Entry(0xffffffd, 28) case 221 => Entry(0x7ffffe3, 27) case 222 => Entry(0x7ffffe4, 27)
    case _ => Entry(0x7ffffe5, 27)
  }

  function EntryAt14(i: nat): Entry {
    match i
    case 224 => Entry(0xfffec, 20) case 225 => Entry(0xfffff3, 24) case 226 => Entry(0xfffed, 20)
    case 227 => Entry(0x1fffe6, 21) case 228 => Entry(0x3fffe9, 22) case 229 => Entry(0x1fffe7, 21)
    case 230 => Entry(0x1fffe8, 21) case 231 => Entry(0x7ffff3, 23) case 232 => Entry(0x3fffea, 22)
    case 233 => Entry(0x3fffeb, 22) case 234 => Entry(0x1ffffee, 25) case 235 => Entry(0x1ffffef, 25)
    case 236 => Entry(0xfffff4, 24) case 237 => Entry(0xfffff5, 24) case 238 => Entry(0x3ffffea, 26)
    case _ => Entry(0x7ffff4, 23)
  }

  function EntryAt15(i: nat): Entry {
    match i
    case 240 => Entry(0x3ffffeb, 26) case 241 => Entry(0x7ffffe6, 27) case 242 => Entry(0x3ffffec, 26)
    case 243 => Entry(0x3ffffed, 26) case 244 => Entry(0x7ffffe7, 27) case 245 => Entry(0x7ffffe8, 27)
    case 246 => Entry(0x7ffffe9, 27) case 247 => Entry(0x7ffffea, 27) case 248 => Entry(0x7ffffeb, 27)
    case 249 => Entry(0xffffffe, 28) case 250 => Entry(0x7ffffec, 27) case 251 => Entry(0x7ffffed, 27)
    case 252 => Entry(0x7ffffee, 27) case 253 => Entry(0x7ffffef, 27) case 254 => Entry(0x7fffff0, 27)
    case _ => Entry(0x3ffffee, 26)
  }

  function EntryAt16(i: nat): Entry {
    Entry(0x3fffffff, 30)
  }

  /** The code of symbol `i`; 256 is the end of string. */
  function EntryAt(i: nat): Entry {
    match i / 16
    case 0 => EntryAt0(i) case 1 => EntryAt1(i) case 2 => EntryAt2(i) case 3 => EntryAt3(i)
    case 4 => EntryAt4(i) case 5 => EntryAt5(i) case 6 => EntryAt6(i) case 7 => EntryAt7(i)
    case 8 => EntryAt8(i) case 9 => EntryAt9(i) case 10 => EntryAt10(i) case 11 => EntryAt11(i)
    case 12 => EntryAt12(i) case 13 => EntryAt13(i) case 14 => EntryAt14(i) case 15 => EntryAt15(i)
    case _ => EntryAt16(i)
  }

  // ----- the symbols in canonical order -----

  function SymbolAt0(i: nat): nat {
    match i
    case 0 => 48 case 1 => 49 case 2 => 50 case 3 => 97 case 4 => 99 case 5 => 101
    case 6 => 105 case 7 => 111 case 8 => 115 case 9 => 116 case 10 => 32 case 11 => 37
    case 12 => 45 case 13 => 46 case 14 => 47 case _ => 51
  }

  function SymbolAt1(i: nat): nat {
    match i
    case 16 => 52 case 17 => 53 case 18 => 54 case 19 => 55 case 20 => 56 case 21 => 57
    case 22 => 61 case 23 => 65 case 24 => 95 case 25 => 98 case 26 => 100 case 27 => 102
    case 28 => 103 case 29 => 104 case 30 => 108 case _ => 109
  }

  function SymbolAt2(i: nat): nat {
    match i
    case 32 => 110 case 33 => 112 case 34 => 114 case 35 => 117 case 36 => 58 case 37 => 66
    case 38 => 67 case 39 => 68 case 40 => 69 case 41 => 70 case 42 => 71 case 43 => 72
    case 44 => 73 case 45 => 74 case 46 => 75 case _ => 76
  }

  function SymbolAt3(i: nat): nat {
    match i
    case 48 => 77 case 49 => 78 case 50 => 79 case 51 => 80 case 52 => 81 case 53 => 82
    case 54 => 83 case 55 => 84 case 56 => 85 case 57 => 86 case 58 => 87 case 59 => 89
    case 60 => 106 case 61 => 107 case 62 => 113 case _ => 118
  }

  function SymbolAt4(i: nat): nat {
    match i
    case 64 => 119 case 65 => 120 case 66 => 121 case 67 => 122 case 68 => 38 case 69 => 42
    case 70 => 44 case 71 => 59 case 72 => 88 case 73 => 90 case 74 => 33 case 75 => 34
    case 76 => 40 case 77 => 41 case 78 => 63 case _ => 39
  }

  function SymbolAt5(i: nat): nat {
    match i
    case 80 => 43 case 81 => 124 case 82 => 35 case 83 => 62 case 84 => 0 case 85 => 36
    case 86 => 64 case 87 => 91 case 88 => 93 case 89 => 126 case 90 => 94 case 91 => 125
    case 92 => 60 case 93 => 96 case 94 => 123 case _ => 92
  }

  function SymbolAt6(i: nat): nat {
    match i
    case 96 => 195 case 97 => 208 case 98 => 128 case 99 => 130 case 100 => 131 case 101 => 162
    case 102 => 184 case 103 => 194 case 104 => 224 case 105 => 226 case 106 => 153 case 107 => 161
    case 108 => 167 case 109 => 172 case 110 => 176 case _ => 177
  }

  function SymbolAt7(i: nat): nat {
    match i
    case 112 => 179 case 113 => 209 case 114 => 216 case 115 => 217 case 116 => 227 case 117 => 229
    case 118 => 230 case 119 => 129 case 120 => 132 case 121 => 133 case 122 => 134 case 123 => 136
    case 124 => 146 case 125 => 154 case 126 => 156 case _ => 160
  }

  function SymbolAt8(i: nat): nat {
    match i
    case 128 => 163 case 129 => 164 case 130 => 169 case 131 => 170 case 132 => 173 case 133 => 178
    case 134 => 181 case 135 => 185 case 136 => 186 case 137 => 187 case 138 => 189 case 139 => 190
    case 140 => 196 case 141 => 198 case 142 => 228 case _ => 232
  }

  function SymbolAt9(i: nat): nat {
    match i
    case 144 => 233 case 145 => 1 case 146 => 135 case 147 => 137 case 148 => 138 case 149 => 139
    case 150 => 140 case 151 => 141 case 152 => 143 case 153 => 147 case 154 => 149 case 155 => 150
    case 156 => 151 case 157 => 152 case 158 => 155 case _ => 157
  }

  function SymbolAt10(i: nat): nat {
    match i
    case 160 => 158 case 161 => 165 case 162 => 166 case 163 => 168 case 164 => 174 case 165 => 175
    case 166 => 180 case 167 => 182 case 168 => 183 case 169 => 188 case 170 => 191 case 171 => 197
    case 172 => 231 case 173 => 239 case 174 => 9 case _ => 142
  }

  function SymbolAt11(i: nat): nat {
    match i
    case 176 => 144 case 177 => 145 case 178 => 148 case 179 => 159 case 180 => 171 case 181 => 206
    case 182 => 215 case 183 => 225 case 184 => 236 case 185 => 237 case 186 => 199 case 187 => 207
    case 188 => 234 case 189 => 235 case 190 => 192 case _ => 193
  }

  function SymbolAt12(i: nat): nat {
    match i
    case 192 => 200 case 193 => 201 case 194 => 202 case 195 => 205 case 196 => 210 case 197 => 213
    case 198 => 218 case 199 => 219 case 200 => 238 case 201 => 240 case 202 => 242 case 203 => 243
    case 204 => 255 case 205 => 203 case 206 => 204 case _ => 211
  }

  function SymbolAt13(i: nat): nat {
    match i
    case 208 => 212 case 209 => 214 case 210 => 221 case 211 => 222 case 212 => 223 case 213 => 241
    case 214 => 244 case 215 => 245 case 216 => 246 case 217 => 247 case 218 => 248 case 219 => 250
    case 220 => 251 case 221 => 252 case 222 => 253 case _ => 254
  }

  function SymbolAt14(i: nat): nat {
    match i
    case 224 => 2 case 225 => 3 case 226 => 4 case 227 => 5 case 228 => 6 case 229 => 7
    case 230 => 8 case 231 => 11 case 232 => 12 case 233 => 14 case 234 => 15 case 235 => 16
    case 236 => 17 case 237 => 18 case 238 => 19 case _ => 20
  }

  function SymbolAt15(i: nat): nat {
    match i
    case 240 => 21 case 241 => 23 case 242 => 24 case 243 => 25 case 244 => 26 case 245 => 27
    case 246 => 28 case 247 => 29 case 248 => 30 case 249 => 31 case 250 => 127 case 251 => 220
    case 252 => 249 case 253 => 10 case 254 => 13 case _ => 22
  }

  function SymbolAt16(i: nat): nat {
    256
  }

  /** The symbol whose code is handed out `i`-th. */
  function SymbolAt(i: nat): nat {
    match i / 16
    case 0 => SymbolAt0(i) case 1 => SymbolAt1(i) case 2 => SymbolAt2(i) case 3 => SymbolAt3(i)
    case 4 => SymbolAt4(i) case 5 => SymbolAt5(i) case 6 => SymbolAt6(i) case 7 => SymbolAt7(i)
    case 8 => SymbolAt8(i) case 9 => SymbolAt9(i) case 10 => SymbolAt10(i) case 11 => SymbolAt11(i)
    case 12 => SymbolAt12(i) case 13 => SymbolAt13(i) case 14 => SymbolAt14(i) case 15 => SymbolAt15(i)
    case _ => SymbolAt16(i)
  }

  /** Where the codes of each length start: in the order, and as numbers. */
  function StartOf(l: nat): (int, int) {
    match l
    case 5 => (0, 0x0) case 6 => (10, 0x14) case 7 => (36, 0x5c) case 8 => (68, 0xf8)
    case 10 => (74, 0x3f8) case 11 => (79, 0x7fa) case 12 => (82, 0xffa) case 13 => (84, 0x1ff8)
    case 14 => (90, 0x3ffc) case 15 => (92, 0x7ffc) case 19 => (95, 0x7fff0) case 20 => (98, 0xfffe6)
    case 21 => (106, 0x1fffdc) case 22 => (119, 0x3fffd2) case 23 => (145, 0x7fffd8) case 24 => (174, 0xffffea)
    case 25 => (186, 0x1ffffec) case 26 => (190, 0x3ffffe0) case 27 => (205, 0x7ffffde) case 28 => (224, 0xfffffe2)
    case 30 => (253, 0x3ffffffc)
    case _ => (0, 0)
  }

  function TableOf(): (table: seq<Entry>)
    ensures |table| == SYMBOL_COUNT
    ensures forall s :: 0 <= s < SYMBOL_COUNT ==> table[s] == EntryAt(s)
  {
    seq(SYMBOL_COUNT, s requires s >= 0 => EntryAt(s))
  }

  function OrderOf(): (order: seq<nat>)
    ensures |order| == SYMBOL_COUNT
    ensures forall p :: 0 <= p < SYMBOL_COUNT ==> order[p] == SymbolAt(p)
  {
    seq(SYMBOL_COUNT, p requires p >= 0 => SymbolAt(p))
  }

  // ----- the table, row by row -----

  /** `c << n` for the shifts the table has. */
  function Shift(c: nat, n: nat): nat {
    if n == 0 then c else if n == 1 then 2 * c else if n == 2 then 4 * c else if n == 3 then 8 * c else 16 * c
  }

  /** The step from the `p`-th code handed out to the next. */
  predicate Follows(p: nat) {
    var s, t := SymbolAt(p), SymbolAt(p + 1);
    var e, f := EntryAt(s), EntryAt(t);
    && s < SYMBOL_COUNT && t < SYMBOL_COUNT
    && e.length <= f.length <= e.length + 4
    && (e.length == f.length ==> s < t)
    && f.code == Shift(e.code + 1, f.length - e.length)
  }

  /** Where symbol `s` is in the order, from its code. */
  function PlaceOf(s: nat): int {
    var e := EntryAt(s);
    StartOf(e.length).0 + e.code - StartOf(e.length).1
  }

  predicate Placed(s: nat) {
    && 1 <= EntryAt(s).length <= LONGEST
    && 0 <= PlaceOf(s) < SYMBOL_COUNT
    && SymbolAt(PlaceOf(s)) == s
  }

  lemma Follows0()
    ensures forall p :: 0 <= p < 8 ==> Follows(p)
  {
  }

  lemma Follows1()
    ensures forall p :: 8 <= p < 16 ==> Follows(p)
  {
  }

  lemma Follows2()
    ensures forall p :: 16 <= p < 24 ==> Follows(p)
  {
  }

  lemma Follows3()
    ensures forall p :: 24 <= p < 32 ==> Follows(p)
  {
  }

  lemma Follows4()
    ensures forall p :: 32 <= p < 40 ==> Follows(p)
  {
  }

  lemma Follows5()
    ensures forall p :: 40 <= p < 48 ==> Follows(p)
  {
  }

  lemma Follows6()
    ensures forall p :: 48 <= p < 56 ==> Follows(p)
  {
  }

  lemma Follows7()
    ensures forall p :: 56 <= p < 64 ==> Follows(p)
  {
  }

  lemma Follows8()
    ensures forall p :: 64 <= p < 72 ==> Follows(p)
  {
  }

  lemma Follows9()
    ensures forall p :: 72 <= p < 80 ==> Follows(p)
  {
  }

  lemma Follows10()
    ensures forall p :: 80 <= p < 88 ==> Follows(p)
  {
  }

  lemma Follows11()
    ensures forall p :: 88 <= p < 96 ==> Follows(p)
  {
  }

  lemma Follows12()
    ensures forall p :: 96 <= p < 104 ==> Follows(p)
  {
  }

  lemma Follows13()
    ensures forall p :: 104 <= p < 112 ==> Follows(p)
  {
  }

  lemma Follows14()
    ensures forall p :: 112 <= p < 120 ==> Follows(p)
  {
  }

  lemma Follows15()
    ensures forall p :: 120 <= p < 128 ==> Follows(p)
  {
  }

  lemma Follows16()
    ensures forall p :: 128 <= p < 136 ==> Follows(p)
  {
  }

  lemma Follows17()
    ensures forall p :: 136 <= p < 144 ==> Follows(p)
  {
  }

  lemma Follows18()
    ensures forall p :: 144 <= p < 152 ==> Follows(p)
  {
  }

  lemma Follows19()
    ensures forall p :: 152 <= p < 160 ==> Follows(p)
  {
  }

  lemma Follows20()
    ensures forall p :: 160 <= p < 168 ==> Follows(p)
  {
  }

  lemma Follows21()
    ensures forall p :: 168 <= p < 176 ==> Follows(p)
  {
  }

  lemma Follows22()
    ensures forall p :: 176 <= p < 184 ==> Follows(p)
  {
  }

  lemma Follows23()
    ensures forall p :: 184 <= p < 192 ==> Follows(p)
  {
  }

  lemma Follows24()
    ensures forall p :: 192 <= p < 200 ==> Follows(p)
  {
  }

  lemma Follows25()
    ensures forall p :: 200 <= p < 208 ==> Follows(p)
  {
  }

  lemma Follows26()
    ensures forall p :: 208 <= p < 216 ==> Follows(p)
  {
  }

  lemma Follows27()
    ensures forall p :: 216 <= p < 224 ==> Follows(p)
  {
  }

  lemma Follows28()
    ensures forall p :: 224 <= p < 232 ==> Follows(p)
  {
  }

  lemma Follows29()
    ensures forall p :: 232 <= p < 240 ==> Follows(p)
  {
  }

  lemma Follows30()
    ensures forall p :: 240 <= p < 248 ==> Follows(p)
  {
  }

  lemma Follows31()
    ensures forall p :: 248 <= p < 256 ==> Follows(p)
  {
  }

  lemma Placed0()
    ensures forall s :: 0 <= s < 8 ==> Placed(s)
  {
  }

  lemma Placed1()
    ensures forall s :: 8 <= s < 16 ==> Placed(s)
  {
  }

  lemma Placed2()
    ensures forall s :: 16 <= s < 24 ==> Placed(s)
  {
  }

  lemma Placed3()
    ensures forall s :: 24 <= s < 32 ==> Placed(s)
  {
  }

  lemma Placed4()
    ensures forall s :: 32 <= s < 40 ==> Placed(s)
  {
  }

  lemma Placed5()
    ensures forall s :: 40 <= s < 48 ==> Placed(s)
  {
  }

  lemma Placed6()
    ensures forall s :: 48 <= s < 56 ==> Placed(s)
  {
  }

  lemma Placed7()
    ensures forall s :: 56 <= s < 64 ==> Placed(s)
  {
  }

  lemma Placed8()
    ensures forall s :: 64 <= s < 72 ==> Placed(s)
  {
  }

  lemma Placed9()
    ensures forall s :: 72 <= s < 80 ==> Placed(s)
  {
  }

  lemma Placed10()
    ensures forall s :: 80 <= s < 88 ==> Placed(s)
  {
  }

  lemma Placed11()
    ensures forall s :: 88 <= s < 96 ==> Placed(s)
  {
  }

  lemma Placed12()
    ensures forall s :: 96 <= s < 104 ==> Placed(s)
  {
  }

  lemma Placed13()
    ensures forall s :: 104 <= s < 112 ==> Placed(s)
  {
  }

  lemma Placed14()
    ensures forall s :: 112 <= s < 120 ==> Placed(s)
  {
  }

  lemma Placed15()
    ensures forall s :: 120 <= s < 128 ==> Placed(s)
  {
  }

  lemma Placed16()
    ensures forall s :: 128 <= s < 136 ==> Placed(s)
  {
  }

  lemma Placed17()
    ensures forall s :: 136 <= s < 144 ==> Placed(s)
  {
  }

  lemma Placed18()
    ensures forall s :: 144 <= s < 152 ==> Placed(s)
  {
  }

  lemma Placed19()
    ensures forall s :: 152 <= s < 160 ==> Placed(s)
  {
  }

  lemma Placed20()
    ensures forall s :: 160 <= s < 168 ==> Placed(s)
  {
  }

  lemma Placed21()
    ensures forall s :: 168 <= s < 176 ==> Placed(s)
  {
  }

  lemma Placed22()
    ensures forall s :: 176 <= s < 184 ==> Placed(s)
  {
  }

  lemma Placed23()
    ensures forall s :: 184 <= s < 192 ==> Placed(s)
  {
  }

  lemma Placed24()
    ensures forall s :: 192 <= s < 200 ==> Placed(s)
  {
  }

  lemma Placed25()
    ensures forall s :: 200 <= s < 208 ==> Placed(s)
  {
  }

  lemma Placed26()
    ensures forall s :: 208 <= s < 216 ==> Placed(s)
  {
  }

  lemma Placed27()
    ensures forall s :: 216 <= s < 224 ==> Placed(s)
  {
  }

  lemma Placed28()
    ensures forall s :: 224 <= s < 232 ==> Placed(s)
  {
  }

  lemma Placed29()
    ensures forall s :: 232 <= s < 240 ==> Placed(s)
  {
  }

  lemma Placed30()
    ensures forall s :: 240 <= s < 248 ==> Placed(s)
  {
  }

  lemma Placed31()
    ensures forall s :: 248 <= s < 256 ==> Placed(s)
  {
  }

  lemma EveryCodeFollows()
    ensures forall p :: 0 <= p < SYMBOL_COUNT - 1 ==> Follows(p)
  {
    hide Follows;
    Follows0(); Follows1(); Follows2(); Follows3(); Follows4(); Follows5(); Follows6(); Follows7();
    Follows8(); Follows9(); Follows10(); Follows11(); Follows12(); Follows13(); Follows14(); Follows15();
    Follows16(); Follows17(); Follows18(); Follows19(); Follows20(); Follows21(); Follows22(); Follows23();
    Follows24(); Follows25(); Follows26(); Follows27(); Follows28(); Follows29(); Follows30(); Follows31();
  }

  lemma EverySymbolIsPlaced()
    ensures forall s :: 0 <= s < SYMBOL_COUNT ==> Placed(s)
  {
    hide Placed;
    Placed0(); Placed1(); Placed2(); Placed3(); Placed4(); Placed5(); Placed6(); Placed7();
    Placed8(); Placed9(); Placed10(); Placed11(); Placed12(); Placed13(); Placed14(); Placed15();
    Placed16(); Placed17(); Placed18(); Placed19(); Placed20(); Placed21(); Placed22(); Placed23();
    Placed24(); Placed25(); Placed26(); Placed27(); Placed28(); Placed29(); Placed30(); Placed31();
    EosIsPlaced();
  }

  lemma EosIsPlaced()
    ensures Placed(256)
  {
  }

  lemma PowersOfTwo()
    ensures Pow2(0) == 1 && Pow2(1) == 2 && Pow2(2) == 4 && Pow2(3) == 8 && Pow2(4) == 16
    ensures Pow2(30) == 0x4000_0000
  {
    assert Pow2(3) == 2 * Pow2(2);
    assert Pow2(5) == 2 * Pow2(4);
    Pow2Split(5, 5);
    Pow2Split(10, 10);
    Pow2Split(10, 20);
  }

  lemma FollowsIsStep(p: nat)
    requires Follows(p)
    ensures Step(EntryAt(SymbolAt(p)), EntryAt(SymbolAt(p + 1)), SymbolAt(p), SymbolAt(p + 1))
  {
    hide EntryAt, SymbolAt;
    PowersOfTwo();
  }

  lemma InTable(p: nat)
    requires p < SYMBOL_COUNT && forall r :: 0 <= r < SYMBOL_COUNT - 1 ==> Follows(r)
    ensures SymbolAt(p) < SYMBOL_COUNT
  {
    hide EntryAt, SymbolAt;
    if p < SYMBOL_COUNT - 1 {
      assert Follows(p);
    } else {
      assert Follows(p - 1);
    }
  }

  lemma FirstAndLast()
    ensures EntryAt(SymbolAt(0)).code == 0
    ensures EntryAt(SymbolAt(256)) == Entry(0x3fff_ffff, LONGEST) && SymbolAt(256) == EOS
    ensures SymbolAt(0) < SYMBOL_COUNT
  {
  }

  /** The table lists its codes in turn. */
  lemma TheTableIsOrdered()
    ensures Orders(TableOf(), OrderOf()) && Lengths(TableOf(), LONGEST)
    ensures TableOf()[OrderOf()[SYMBOL_COUNT - 1]].length == LONGEST
  {
    hide EntryAt, SymbolAt, Step;
    var table, order := TableOf(), OrderOf();
    EveryCodeFollows();
    EverySymbolIsPlaced();
    FirstAndLast();
    PowersOfTwo();
    forall p | 0 <= p < SYMBOL_COUNT
      ensures order[p] < SYMBOL_COUNT
    {
      InTable(p);
    }
    forall p, q | 0 <= p < q < SYMBOL_COUNT && q == p + 1
      ensures Step(table[order[p]], table[order[q]], order[p], order[q])
    {
      assert Follows(p);
      FollowsIsStep(p);
    }
    forall s: nat | s < SYMBOL_COUNT
      ensures s in order && 1 <= table[s].length <= LONGEST
    {
      assert Placed(s);
      assert order[PlaceOf(s)] == s;
    }
  }

  function CountsOf(): (count: seq<nat>)
    ensures |count| == LONGEST + 1
    ensures Counts(TableOf(), LONGEST, count)
  {
    seq(LONGEST + 1, l requires l >= 0 => CountOf(TableOf(), l, SYMBOL_COUNT))
  }

  /** The code of Appendix B of RFC 7541 is a complete canonical code: deriving the codes from the
      lengths gives back every code of the table, and the code has room for no other. */
  lemma TheCodeIsCanonical()
    ensures Canonical(TableOf(), CountsOf(), OrderOf()) && Longest(CountsOf()) == LONGEST
    ensures Complete(CountsOf()) && |OrderOf()| == Index(CountsOf(), |CountsOf()|)
  {
    hide EntryAt, SymbolAt, Orders, Canonical, Complete, CodesFollow, CountOf;
    var table, order, count := TableOf(), OrderOf(), CountsOf();
    TheTableIsOrdered();
    OrderedTableIsCanonical(table, order, LONGEST, count);
    OrderIsRanked(table, order, LONGEST, count);
    TablesAreCanonical(table, LONGEST, count, order);
    CanonicalIsComplete(table, count, order);
  }

  /** The tables the decoder works from are counted from the lengths of the codes. */
  method Tables() returns (count: seq<nat>, symbols: seq<nat>)
    ensures count == CountsOf() && symbols == OrderOf()
    ensures Canonical(TableOf(), count, symbols)
  {
    hide EntryAt, SymbolAt, Orders, Canonical, Complete, CodesFollow, CountOf, Index;
    TheTableIsOrdered();
    TheCodeIsCanonical();
    count := CountLengths(TableOf(), LONGEST);
    assert count == CountsOf();
    symbols := SortSymbols(TableOf(), LONGEST, count);
    RankedIsOrder(TableOf(), OrderOf(), LONGEST, count, symbols);
  }

  /** Each code fits the bits it is said to have. */
  lemma CodesFit(count: seq<nat>, symbols: seq<nat>)
    requires Canonical(TableOf(), count, symbols) && Longest(count) == LONGEST
    ensures forall s :: 0 <= s < SYMBOL_COUNT ==>
              TableOf()[s].length <= LONGEST && TableOf()[s].code < Pow2(TableOf()[s].length)
  {
    hide EntryAt, SymbolAt;
    var table := TableOf();
    forall s: nat | s < SYMBOL_COUNT
      ensures table[s].length <= LONGEST && table[s].code < Pow2(table[s].length)
    {
      assert InRange(table, count, s);
      RoomLeft(count, table[s].length);
    }
  }

  /** What a Huffman-coded string of an HTTP header says. */
  ghost function HuffmanOf(input: bytes): Result<seq<nat>, HuffmanError> {
    TheCodeIsCanonical();
    DecodeOf(CountsOf(), OrderOf(), input)
  }

  method DecodeString(input: bytes) returns (r: Result<seq<nat>, HuffmanError>)
    ensures r == HuffmanOf(input)
    ensures r.Ok? ==> forall i :: 0 <= i < |r.value| ==> r.value[i] < 256
  {
    hide EntryAt, SymbolAt, Canonical, DecodeOf;
    TheCodeIsCanonical();
    var count, symbols := Tables();
    r := Decode(TableOf(), count, symbols, input);
  }

  /** Decoding a string of an HTTP header is exact: it yields a text if and only if the string is the
      coding of the text by Appendix B of RFC 7541, padded with fewer than eight one-bits; and it
      objects to a coded end of string if and only if one is coded. */
  lemma HeaderStringsAreExact(input: bytes, text: seq<nat>)
    ensures HuffmanOf(input) == Ok(text) <==>
              exists pad :: |pad| < 8 && AllOnes(pad) && Codes(TableOf(), input, text, pad)
    ensures HuffmanOf(input) == Err(EosCoded) <==>
              exists plain, tail :: Codes(TableOf(), input, plain, EntryBits(TableOf()[EOS]) + tail)
  {
    hide EntryAt, SymbolAt, Canonical, DecodeOf, Codes, EntryBits, AllOnes;
    TheCodeIsCanonical();
    DecodingIsExact(TableOf(), CountsOf(), OrderOf(), input, text);
    EosIsExact(TableOf(), CountsOf(), OrderOf(), input);
  }

  /** Every string of octets survives being coded and decoded. */
  method RoundTrip(input: bytes) returns (coded: bytes)
    ensures HuffmanOf(coded) == Ok(Symbols(input))
  {
    hide EntryAt, SymbolAt, Canonical, DecodeOf, EntryBits, AllOnes;
    TheCodeIsCanonical();
    CodesFit(CountsOf(), OrderOf());
    coded := Encode(TableOf(), input);
    HeaderStringsAreExact(coded, Symbols(input));
  }
}
