/** The fixed tutor catalog (MOCK_TUTORS). Ratings, distances and GPAs are floating point
    and are not part of the records here. */
module MockData {
  import opened Types
  import Seqs

  const Tutor1: Tutor := Tutor(
    "1", "Nguyễn Văn An", "https://picsum.photos/200/200?random=1",
    ["Đại số tuyến tính", "Giải tích 1", "Toán Cao Cấp"], 120, 150000,
    "Sinh viên năm 3 ĐH Bách Khoa, GPA 3.6/4.0. Chuyên trị các môn Toán đại cương cho sinh viên năm nhất.",
    "ĐH Bách Khoa HN",
    [Grade("Giải tích 1", "A"), Grade("Giải tích 2", "A"), Grade("Đại số tuyến tính", "A+"),
     Grade("Vật lý đại cương", "B+"), Grade("Nhập môn CNTT", "A")],
    true)

  const Tutor2: Tutor := Tutor(
    "2", "Trần Thị Thu Hà", "https://picsum.photos/200/200?random=2",
    ["Tiếng Anh", "IELTS", "Triết học Mác-Lênin"], 85, 200000,
    "IELTS 8.0. Hỗ trợ qua môn Triết học và Kinh tế chính trị với phương pháp sơ đồ tư duy dễ nhớ.",
    "ĐH Ngoại Thương",
    [Grade("Triết học Mác-Lênin", "A"), Grade("Kinh tế chính trị", "A"),
     Grade("Tiếng Anh thương mại", "A+"), Grade("Marketing căn bản", "A")],
    true)

  const Tutor3: Tutor := Tutor(
    "3", "Lê Minh Tuấn", "https://picsum.photos/200/200?random=3",
    ["Cấu trúc dữ liệu", "Lập trình C++", "Java"], 45, 180000,
    "Thành thạo thuật toán, hỗ trợ đồ án môn học CNTT.",
    "ĐH Công Nghệ - ĐHQGHN",
    [Grade("Nhập môn lập trình", "A"), Grade("Cấu trúc dữ liệu & GT", "B+"),
     Grade("Lập trình hướng đối tượng", "A"), Grade("Kiến trúc máy tính", "B")],
    true)

  const Tutor4: Tutor := Tutor(
    "4", "Phạm Ngọc Mai", "https://picsum.photos/200/200?random=4",
    ["Pháp luật đại cương", "Tư tưởng HCM", "Văn"], 200, 120000,
    "Giọng nói truyền cảm, phương pháp dạy sáng tạo, giúp các bạn khối kỹ thuật không còn sợ môn lý luận.",
    "ĐH Luật HN",
    [Grade("Lý luận nhà nước & pháp luật", "A"), Grade("Luật Hiến pháp", "A-"),
     Grade("Tư tưởng Hồ Chí Minh", "A"), Grade("Lịch sử Đảng", "B+")],
    false)

  const Tutor5: Tutor := Tutor(
    "5", "Hoàng Quốc Bảo", "https://picsum.photos/200/200?random=5",
    ["Xác suất thống kê", "Kinh tế vi mô"], 30, 250000,
    "Sinh viên giỏi, hỗ trợ giải bài tập xác suất và kinh tế lượng.",
    "ĐH Kinh Tế Quốc Dân",
    [Grade("Toán cao cấp cho KT", "B+"), Grade("Xác suất thống kê", "A"),
     Grade("Kinh tế lượng", "A-"), Grade("Kinh tế Vi mô", "A")],
    true)

  const Tutor6: Tutor := Tutor(
    "6", "Vũ Thanh Hằng", "https://picsum.photos/200/200?random=6",
    ["Tiếng Trung", "HSK 3-4-5"], 60, 160000,
    "HSK 6, Topik 5. Vui vẻ, nhiệt tình, dạy giao tiếp và luyện thi.",
    "ĐH Hà Nội",
    [Grade("Tiếng Trung tổng hợp 1", "A+"), Grade("Tiếng Trung tổng hợp 2", "A"),
     Grade("Văn hóa Trung Quốc", "A"), Grade("Dịch thuật", "B+")],
    true)

  const Catalog: seq<Tutor> := [Tutor1, Tutor2, Tutor3, Tutor4, Tutor5, Tutor6]

  /** Tutor '2' is a catalog entry. */
  lemma Tutor2InCatalog()
    ensures Tutor2 in Catalog
  {
  }

  /** Every catalog entry has its own identity. */
  lemma CatalogIdsUnique()
    ensures Seqs.UniqueKeys(Catalog, TutorId)
  {
  }
}
