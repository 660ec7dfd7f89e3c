/** What may become a path component. */
module SafeName {
  predicate SafeChar(c: char) {
    c >= ' ' && c != 0x7F as char && c != '/' && c != '\\' && c != ':' && c != '*' && c != '?'
    && c != '"' && c != '<' && c != '>' && c != '|'
  }

  predicate IsSafeName(name: string) {
    1 <= |name| <= 255 && name[0] != '.' && forall i :: 0 <= i < |name| ==> SafeChar(name[i])
  }

  predicate HexChar(c: char) {
    '0' <= c <= '9' || 'a' <= c <= 'f'
  }

  predicate IsSafeChunkId(id: string) {
    |id| == 64 && forall i :: 0 <= i < |id| ==> HexChar(id[i])
  }
}
